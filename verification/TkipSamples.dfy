/** A temporal key, address and counter mixed to the seed that a test vector published with IEEE 802.11i-2004 gives. */
module TkipSamples {

  import opened TkipTables
  import opened TkipMixSpec

  function Key(): (key: seq<Byte>)
    ensures |key| == 16
  {
    [0x63, 0x89, 0x3B, 0x25, 0x08, 0x40, 0xB8, 0xAE, 0x0B, 0xD0, 0xFA, 0x7E, 0x61, 0xD2, 0x78, 0x3E]
  }

  lemma KeyWords()
    ensures KeyWord(Key(), 0) == 0x8963 && KeyWord(Key(), 2) == 0x253B && KeyWord(Key(), 4) == 0x4008 && KeyWord(Key(), 6) == 0xAEB8
    ensures KeyWord(Key(), 8) == 0xD00B && KeyWord(Key(), 10) == 0x7EFA && KeyWord(Key(), 12) == 0xD261 && KeyWord(Key(), 14) == 0x3E78
  {
  }

  function Mixed(x: Half, y: Half): Half { x ^ y }

  /** A substitution step by its intermediate values. */
  lemma StirIs(w: Half, u: Half, k: Half, x: Half, h: Byte, l: Byte, a: Byte, b: Byte, c: Byte, d: Byte,
               m: Half, n: Half, s: Half, v: Half)
    requires Differ(u, k) == x && Hi8(x) == h && Lo8(x) == l
    requires Upper(l) == a && Lower(l) == b && Lower(h) == c && Upper(h) == d
    requires Mk16(a, b) == m && Mk16(c, d) == n && Mixed(m, n) == s && Plus(w, s) == v
    ensures Stir(w, u, k) == v
  {
    hide Differ, Hi8, Lo8, Upper, Lower, Mk16, Plus;
  }

  lemma FirstStirs0()
    ensures Stir(0xFD43, 0x25DC, 0x8963) == 0xB564
    ensures Stir(0x20DC, 0xB564, 0x4008) == 0xB203
  {
    hide Stir;
    StirIs(0xFD43, 0x25DC, 0x8963, 0xACBF, 0xAC, 0xBF, 0x10, 0x18, 0xA8, 0x39, 0x1018, 0xA839, 0xB821, 0xB564);
    StirIs(0x20DC, 0xB564, 0x4008, 0xF56C, 0xF5, 0x6C, 0xA0, 0xF0, 0x31, 0xD7, 0xA0F0, 0x31D7, 0x9127, 0xB203);
  }

  lemma NextStirs0()
    ensures Stir(0xF264, 0xB203, 0xD00B) == 0x7783
    ensures Stir(0xEDEA, 0x7783, 0xD261) == 0x0FA9
  {
    hide Stir;
    StirIs(0xF264, 0xB203, 0xD00B, 0x6208, 0x62, 0x08, 0x60, 0x50, 0xE5, 0x4F, 0x6050, 0xE54F, 0x851F, 0x7783);
    StirIs(0xEDEA, 0x7783, 0xD261, 0xA5E2, 0xA5, 0xE2, 0x2B, 0xB3, 0x0A, 0x0C, 0x2BB3, 0x0A0C, 0x21BF, 0x0FA9);
  }

  lemma LastStirs0()
    ensures Stir(0x25DC, 0x0FA9, 0x8963) == 0x49F0
  {
    hide Stir;
    StirIs(0x25DC, 0x0FA9, 0x8963, 0x86CA, 0x86, 0xCA, 0xE8, 0x9C, 0xCC, 0x88, 0xE89C, 0xCC88, 0x2414, 0x49F0);
  }

  lemma Turn0()
    ensures Turn(Ttak(0xFD43, 0x20DC, 0xF264, 0xEDEA, 0x25DC), Key(), 0) == Ttak(0xB564, 0xB203, 0x7783, 0x0FA9, 0x49F0)
  {
    hide Stir, KeyWord, Key;
    KeyWords();
    FirstStirs0();
    NextStirs0();
    LastStirs0();
    assert Plus(0x49F0, Number(0)) == 0x49F0;
  }

  lemma FirstStirs1()
    ensures Stir(0xB564, 0x49F0, 0x253B) == 0x83E5
    ensures Stir(0xB203, 0x83E5, 0xAEB8) == 0x9D82
  {
    hide Stir;
    StirIs(0xB564, 0x49F0, 0x253B, 0x6CCB, 0x6C, 0xCB, 0x3E, 0x21, 0xF0, 0xA0, 0x3E21, 0xF0A0, 0xCE81, 0x83E5);
    StirIs(0xB203, 0x83E5, 0xAEB8, 0x2D5D, 0x2D, 0x5D, 0x98, 0xD4, 0x73, 0xAB, 0x98D4, 0x73AB, 0xEB7F, 0x9D82);
  }

  lemma NextStirs1()
    ensures Stir(0x7783, 0x9D82, 0x7EFA) == 0xC880
    ensures Stir(0x0FA9, 0xC880, 0x3E78) == 0x53F0
  {
    hide Stir;
    StirIs(0x7783, 0x9D82, 0x7EFA, 0xE378, 0xE3, 0x78, 0x63, 0xDF, 0x33, 0x22, 0x63DF, 0x3322, 0x50FD, 0xC880);
    StirIs(0x0FA9, 0xC880, 0x3E78, 0xF6F8, 0xF6, 0xF8, 0x82, 0xC3, 0xC6, 0x84, 0x82C3, 0xC684, 0x4447, 0x53F0);
  }

  lemma LastStirs1()
    ensures Stir(0x49F0, 0x53F0, 0x253B) == 0xC041
  {
    hide Stir;
    StirIs(0x49F0, 0x53F0, 0x253B, 0x76CB, 0x76, 0xCB, 0x3E, 0x21, 0x48, 0x70, 0x3E21, 0x4870, 0x7651, 0xC041);
  }

  lemma Turn1()
    ensures Turn(Ttak(0xB564, 0xB203, 0x7783, 0x0FA9, 0x49F0), Key(), 1) == Ttak(0x83E5, 0x9D82, 0xC880, 0x53F0, 0xC042)
  {
    hide Stir, KeyWord, Key;
    KeyWords();
    FirstStirs1();
    NextStirs1();
    LastStirs1();
    assert Plus(0xC041, Number(1)) == 0xC042;
  }

  lemma FirstStirs2()
    ensures Stir(0x83E5, 0xC042, 0x8963) == 0x304F
    ensures Stir(0x9D82, 0x304F, 0x4008) == 0x45DB
  {
    hide Stir;
    StirIs(0x83E5, 0xC042, 0x8963, 0x4921, 0x49, 0x21, 0xE1, 0x1C, 0x4D, 0x76, 0xE11C, 0x4D76, 0xAC6A, 0x304F);
    StirIs(0x9D82, 0x304F, 0x4008, 0x7047, 0x70, 0x47, 0x5B, 0xFB, 0xF3, 0xA2, 0x5BFB, 0xF3A2, 0xA859, 0x45DB);
  }

  lemma NextStirs2()
    ensures Stir(0xC880, 0x45DB, 0xD00B) == 0x6744
    ensures Stir(0x53F0, 0x6744, 0xD261) == 0x6EE0
  {
    hide Stir;
    StirIs(0xC880, 0x45DB, 0xD00B, 0x95D0, 0x95, 0xD0, 0xE0, 0x90, 0x7E, 0x54, 0xE090, 0x7E54, 0x9EC4, 0x6744);
    StirIs(0x53F0, 0x6744, 0xD261, 0xB525, 0xB5, 0x25, 0x7E, 0x41, 0x64, 0xB1, 0x7E41, 0x64B1, 0x1AF0, 0x6EE0);
  }

  lemma LastStirs2()
    ensures Stir(0xC042, 0x6EE0, 0x8963) == 0x245E
  {
    hide Stir;
    StirIs(0xC042, 0x6EE0, 0x8963, 0xE783, 0xE7, 0x83, 0xC3, 0x2F, 0xA7, 0x33, 0xC32F, 0xA733, 0x641C, 0x245E);
  }

  lemma Turn2()
    ensures Turn(Ttak(0x83E5, 0x9D82, 0xC880, 0x53F0, 0xC042), Key(), 2) == Ttak(0x304F, 0x45DB, 0x6744, 0x6EE0, 0x2460)
  {
    hide Stir, KeyWord, Key;
    KeyWords();
    FirstStirs2();
    NextStirs2();
    LastStirs2();
    assert Plus(0x245E, Number(2)) == 0x2460;
  }

  lemma FirstStirs3()
    ensures Stir(0x304F, 0x2460, 0x253B) == 0x2702
    ensures Stir(0x45DB, 0x2702, 0xAEB8) == 0x472D
  {
    hide Stir;
    StirIs(0x304F, 0x2460, 0x253B, 0x015B, 0x01, 0x5B, 0x72, 0x4B, 0x84, 0xF8, 0x724B, 0x84F8, 0xF6B3, 0x2702);
    StirIs(0x45DB, 0x2702, 0xAEB8, 0x89BA, 0x89, 0xBA, 0xF3, 0x07, 0xF2, 0x55, 0xF307, 0xF255, 0x0152, 0x472D);
  }

  lemma NextStirs3()
    ensures Stir(0x6744, 0x472D, 0x7EFA) == 0x917A
    ensures Stir(0x6EE0, 0x917A, 0x3E78) == 0xD44B
  {
    hide Stir;
    StirIs(0x6744, 0x472D, 0x7EFA, 0x39D7, 0x39, 0xD7, 0x1C, 0x12, 0x36, 0x24, 0x1C12, 0x3624, 0x2A36, 0x917A);
    StirIs(0x6EE0, 0x917A, 0x3E78, 0xAF02, 0xAF, 0x02, 0xEE, 0x99, 0x8B, 0xF2, 0xEE99, 0x8BF2, 0x656B, 0xD44B);
  }

  lemma LastStirs3()
    ensures Stir(0x2460, 0xD44B, 0x253B) == 0x7F0A
  {
    hide Stir;
    StirIs(0x2460, 0xD44B, 0x253B, 0xF170, 0xF1, 0x70, 0xA2, 0xF3, 0xF8, 0x59, 0xA2F3, 0xF859, 0x5AAA, 0x7F0A);
  }

  lemma Turn3()
    ensures Turn(Ttak(0x304F, 0x45DB, 0x6744, 0x6EE0, 0x2460), Key(), 3) == Ttak(0x2702, 0x472D, 0x917A, 0xD44B, 0x7F0D)
  {
    hide Stir, KeyWord, Key;
    KeyWords();
    FirstStirs3();
    NextStirs3();
    LastStirs3();
    assert Plus(0x7F0A, Number(3)) == 0x7F0D;
  }

  lemma FirstStirs4()
    ensures Stir(0x2702, 0x7F0D, 0x8963) == 0x0A40
    ensures Stir(0x472D, 0x0A40, 0x4008) == 0x0C6E
  {
    hide Stir;
    StirIs(0x2702, 0x7F0D, 0x8963, 0xF66E, 0xF6, 0x6E, 0x25, 0xBA, 0xC6, 0x84, 0x25BA, 0xC684, 0xE33E, 0x0A40);
    StirIs(0x472D, 0x0A40, 0x4008, 0x4A48, 0x4A, 0x48, 0xA4, 0xF6, 0x61, 0xB7, 0xA4F6, 0x61B7, 0xC541, 0x0C6E);
  }

  lemma NextStirs4()
    ensures Stir(0x917A, 0x0C6E, 0xD00B) == 0x9D3A
    ensures Stir(0xD44B, 0x9D3A, 0xD261) == 0xB9A3
  {
    hide Stir;
    StirIs(0x917A, 0x0C6E, 0xD00B, 0xDC65, 0xDC, 0x65, 0x9A, 0xD7, 0x91, 0x17, 0x9AD7, 0x9117, 0x0BC0, 0x9D3A);
    StirIs(0xD44B, 0x9D3A, 0xD261, 0x4F5B, 0x4F, 0x5B, 0x72, 0x4B, 0x97, 0x13, 0x724B, 0x9713, 0xE558, 0xB9A3);
  }

  lemma LastStirs4()
    ensures Stir(0x7F0D, 0xB9A3, 0x8963) == 0xE2EA
  {
    hide Stir;
    StirIs(0x7F0D, 0xB9A3, 0x8963, 0x30C0, 0x30, 0xC0, 0x6F, 0xD5, 0x0C, 0x08, 0x6FD5, 0x0C08, 0x63DD, 0xE2EA);
  }

  lemma Turn4()
    ensures Turn(Ttak(0x2702, 0x472D, 0x917A, 0xD44B, 0x7F0D), Key(), 4) == Ttak(0x0A40, 0x0C6E, 0x9D3A, 0xB9A3, 0xE2EE)
  {
    hide Stir, KeyWord, Key;
    KeyWords();
    FirstStirs4();
    NextStirs4();
    LastStirs4();
    assert Plus(0xE2EA, Number(4)) == 0xE2EE;
  }

  lemma FirstStirs5()
    ensures Stir(0x0A40, 0xE2EE, 0x253B) == 0x61D2
    ensures Stir(0x0C6E, 0x61D2, 0xAEB8) == 0x8D77
  {
    hide Stir;
    StirIs(0x0A40, 0xE2EE, 0x253B, 0xC7D5, 0xC7, 0xD5, 0x06, 0x05, 0x51, 0x97, 0x0605, 0x5197, 0x5792, 0x61D2);
    StirIs(0x0C6E, 0x61D2, 0xAEB8, 0xCF6A, 0xCF, 0x6A, 0x04, 0x06, 0x85, 0x0F, 0x0406, 0x850F, 0x8109, 0x8D77);
  }

  lemma NextStirs5()
    ensures Stir(0x9D3A, 0x8D77, 0x7EFA) == 0x4B37
    ensures Stir(0xB9A3, 0x4B37, 0x3E78) == 0x6959
  {
    hide Stir;
    StirIs(0x9D3A, 0x8D77, 0x7EFA, 0xF38D, 0xF3, 0x8D, 0xBA, 0xE7, 0x17, 0x1A, 0xBAE7, 0x171A, 0xADFD, 0x4B37);
    StirIs(0xB9A3, 0x4B37, 0x3E78, 0x754F, 0x75, 0x4F, 0x13, 0x97, 0xBC, 0x21, 0x1397, 0xBC21, 0xAFB6, 0x6959);
  }

  lemma LastStirs5()
    ensures Stir(0xE2EE, 0x6959, 0x253B) == 0x17A5
  {
    hide Stir;
    StirIs(0xE2EE, 0x6959, 0x253B, 0x4C62, 0x4C, 0x62, 0x4F, 0xE5, 0x7B, 0x52, 0x4FE5, 0x7B52, 0x34B7, 0x17A5);
  }

  lemma Turn5()
    ensures Turn(Ttak(0x0A40, 0x0C6E, 0x9D3A, 0xB9A3, 0xE2EE), Key(), 5) == Ttak(0x61D2, 0x8D77, 0x4B37, 0x6959, 0x17AA)
  {
    hide Stir, KeyWord, Key;
    KeyWords();
    FirstStirs5();
    NextStirs5();
    LastStirs5();
    assert Plus(0x17A5, Number(5)) == 0x17AA;
  }

  lemma FirstStirs6()
    ensures Stir(0x61D2, 0x17AA, 0x8963) == 0x1E3C
    ensures Stir(0x8D77, 0x1E3C, 0x4008) == 0x660F
  {
    hide Stir;
    StirIs(0x61D2, 0x17AA, 0x8963, 0x9EC9, 0x9E, 0xC9, 0xA1, 0x7C, 0x1D, 0x16, 0xA17C, 0x1D16, 0xBC6A, 0x1E3C);
    StirIs(0x8D77, 0x1E3C, 0x4008, 0x5E34, 0x5E, 0x34, 0x30, 0x28, 0xE8, 0xB0, 0x3028, 0xE8B0, 0xD898, 0x660F);
  }

  lemma NextStirs6()
    ensures Stir(0x4B37, 0x660F, 0xD00B) == 0x78C8
    ensures Stir(0x6959, 0x78C8, 0xD261) == 0xBB86
  {
    hide Stir;
    StirIs(0x4B37, 0x660F, 0xD00B, 0xB604, 0xB6, 0x04, 0xFF, 0x0D, 0xD2, 0x9C, 0xFF0D, 0xD29C, 0x2D91, 0x78C8);
    StirIs(0x6959, 0x78C8, 0xD261, 0xAAA9, 0xAA, 0xA9, 0xBD, 0x6E, 0xEF, 0x43, 0xBD6E, 0xEF43, 0x522D, 0xBB86);
  }

  lemma LastStirs6()
    ensures Stir(0x17AA, 0xBB86, 0x8963) == 0xE3E0
  {
    hide Stir;
    StirIs(0x17AA, 0xBB86, 0x8963, 0x32E5, 0x32, 0xE5, 0xA9, 0x70, 0x65, 0x46, 0xA970, 0x6546, 0xCC36, 0xE3E0);
  }

  lemma Turn6()
    ensures Turn(Ttak(0x61D2, 0x8D77, 0x4B37, 0x6959, 0x17AA), Key(), 6) == Ttak(0x1E3C, 0x660F, 0x78C8, 0xBB86, 0xE3E6)
  {
    hide Stir, KeyWord, Key;
    KeyWords();
    FirstStirs6();
    NextStirs6();
    LastStirs6();
    assert Plus(0xE3E0, Number(6)) == 0xE3E6;
  }

  lemma FirstStirs7()
    ensures Stir(0x1E3C, 0xE3E6, 0x253B) == 0x7C67
    ensures Stir(0x660F, 0x7C67, 0xAEB8) == 0x49D7
  {
    hide Stir;
    StirIs(0x1E3C, 0xE3E6, 0x253B, 0xC6DD, 0xC6, 0xDD, 0x99, 0x58, 0xC7, 0x73, 0x9958, 0xC773, 0x5E2B, 0x7C67);
    StirIs(0x660F, 0x7C67, 0xAEB8, 0xD2DF, 0xD2, 0xDF, 0x27, 0xB9, 0xC4, 0x71, 0x27B9, 0xC471, 0xE3C8, 0x49D7);
  }

  lemma NextStirs7()
    ensures Stir(0x78C8, 0x49D7, 0x7EFA) == 0x9724
    ensures Stir(0xBB86, 0x9724, 0x3E78) == 0xB5E9
  {
    hide Stir;
    StirIs(0x78C8, 0x49D7, 0x7EFA, 0x372D, 0x37, 0x2D, 0xAB, 0x73, 0xB5, 0x2F, 0xAB73, 0xB52F, 0x1E5C, 0x9724);
    StirIs(0xBB86, 0x9724, 0x3E78, 0xA95C, 0xA9, 0x5C, 0x94, 0xDE, 0x6E, 0xBD, 0x94DE, 0x6EBD, 0xFA63, 0xB5E9);
  }

  lemma LastStirs7()
    ensures Stir(0xE3E6, 0xB5E9, 0x253B) == 0xB4EA
  {
    hide Stir;
    StirIs(0xE3E6, 0xB5E9, 0x253B, 0x90D2, 0x90, 0xD2, 0x71, 0xC4, 0xA0, 0xC0, 0x71C4, 0xA0C0, 0xD104, 0xB4EA);
  }

  lemma Turn7()
    ensures Turn(Ttak(0x1E3C, 0x660F, 0x78C8, 0xBB86, 0xE3E6), Key(), 7) == Ttak(0x7C67, 0x49D7, 0x9724, 0xB5E9, 0xB4F1)
  {
    hide Stir, KeyWord, Key;
    KeyWords();
    FirstStirs7();
    NextStirs7();
    LastStirs7();
    assert Plus(0xB4EA, Number(7)) == 0xB4F1;
  }

  lemma Starts(n: nat)
    requires n == 8
    ensures Phase1(Key(), [0x64, 0xF2, 0xEA, 0xED, 0xDC, 0x25], 0x20DC, 0xFD43)
      == Turns(Ttak(0xFD43, 0x20DC, 0xF264, 0xEDEA, 0x25DC), Key(), n)
  {
    hide Turns;
    assert Mk16(0xF2, 0x64) == 0xF264;
    assert Mk16(0xED, 0xEA) == 0xEDEA;
    assert Mk16(0x25, 0xDC) == 0x25DC;
  }

  lemma OneMoreTurn(t: Ttak, n: nat)
    requires n < 8
    ensures Turns(t, Key(), n + 1) == Turn(Turns(t, Key(), n), Key(), n)
    ensures Turns(t, Key(), 0) == t
  {
    hide Turn, Key;
  }

  /** Phase 1. */
  lemma Phase1OfSample()
    ensures Phase1(Key(), [0x64, 0xF2, 0xEA, 0xED, 0xDC, 0x25], 0x20DC, 0xFD43) == Ttak(0x7C67, 0x49D7, 0x9724, 0xB5E9, 0xB4F1)
  {
    hide Phase1, Turns, Turn, Key;
    Starts(8);
    var t := Ttak(0xFD43, 0x20DC, 0xF264, 0xEDEA, 0x25DC);
    OneMoreTurn(t, 0);
    Turn0();
    OneMoreTurn(t, 1);
    Turn1();
    OneMoreTurn(t, 2);
    Turn2();
    OneMoreTurn(t, 3);
    Turn3();
    OneMoreTurn(t, 4);
    Turn4();
    OneMoreTurn(t, 5);
    Turn5();
    OneMoreTurn(t, 6);
    Turn6();
    OneMoreTurn(t, 7);
    Turn7();
  }

  lemma FirstSubstitutions()
    ensures Stir(0x7C67, 0xB4F0, 0x8963) == 0x4698
    ensures Stir(0x49D7, 0x4698, 0x253B) == 0x4CCA
  {
    hide Stir;
    StirIs(0x7C67, 0xB4F0, 0x8963, 0x3D93, 0x3D, 0x93, 0xA3, 0x7F, 0x69, 0x4E, 0xA37F, 0x694E, 0xCA31, 0x4698);
    StirIs(0x49D7, 0x4698, 0x253B, 0x63A3, 0x63, 0xA3, 0x14, 0x1E, 0x16, 0xED, 0x141E, 0x16ED, 0x02F3, 0x4CCA);
  }

  lemma NextSubstitutions()
    ensures Stir(0x9724, 0x4CCA, 0x4008) == 0xEAAC
    ensures Stir(0xB5E9, 0xEAAC, 0xAEB8) == 0x780C
  {
    hide Stir;
    StirIs(0x9724, 0x4CCA, 0x4008, 0x0CC2, 0x0C, 0xC2, 0x4A, 0x6F, 0x19, 0xE7, 0x4A6F, 0x19E7, 0x5388, 0xEAAC);
    StirIs(0xB5E9, 0xEAAC, 0xAEB8, 0x4414, 0x44, 0x14, 0xEF, 0x15, 0x2D, 0x36, 0xEF15, 0x2D36, 0xC223, 0x780C);
  }

  lemma LastSubstitutions()
    ensures Stir(0xB4F1, 0x780C, 0xD00B) == 0x81BC
    ensures Stir(0xB4F0, 0x81BC, 0x7EFA) == 0x43B2
  {
    hide Stir;
    StirIs(0xB4F1, 0x780C, 0xD00B, 0xA807, 0xA8, 0x07, 0x91, 0x54, 0x5D, 0x9F, 0x9154, 0x5D9F, 0xCCCB, 0x81BC);
    StirIs(0xB4F0, 0x81BC, 0x7EFA, 0xFF46, 0xFF, 0x46, 0xB4, 0xEE, 0x3A, 0x2C, 0xB4EE, 0x3A2C, 0x8EC2, 0x43B2);
  }

  lemma Substitution()
    ensures Substituted(Ttak(0x7C67, 0x49D7, 0x9724, 0xB5E9, 0xB4F1), Key(), 0xFFFF) == Ppk(0x4698, 0x4CCA, 0xEAAC, 0x780C, 0x81BC, 0x43B2)
  {
    hide Stir, KeyWord, Key;
    KeyWords();
    assert Plus(0xB4F1, 0xFFFF) == 0xB4F0;
    FirstSubstitutions();
    NextSubstitutions();
    LastSubstitutions();
  }

  lemma RotationValues()
    ensures Differ(0x43B2, 0xD261) == 0x91D3 && RotR1(0x91D3) == 0xC8E9
    ensures Plus(0x4698, 0xC8E9) == 0x0F81
    ensures Differ(0x0F81, 0x3E78) == 0x31F9 && RotR1(0x31F9) == 0x98FC
    ensures Plus(0x4CCA, 0x98FC) == 0xE5C6
    ensures RotR1(0xE5C6) == 0x72E3 && Plus(0xEAAC, 0x72E3) == 0x5D8F
    ensures RotR1(0x5D8F) == 0xAEC7 && Plus(0x780C, 0xAEC7) == 0x26D3
    ensures RotR1(0x26D3) == 0x9369 && Plus(0x81BC, 0x9369) == 0x1525
    ensures RotR1(0x1525) == 0x8A92 && Plus(0x43B2, 0x8A92) == 0xCE44
  {
  }

  lemma Rotation()
    ensures Rotated(Ppk(0x4698, 0x4CCA, 0xEAAC, 0x780C, 0x81BC, 0x43B2), Key()) == Ppk(0x0F81, 0xE5C6, 0x5D8F, 0x26D3, 0x1525, 0xCE44)
  {
    hide Plus, RotR1, Differ, KeyWord, Key;
    KeyWords();
    RotationValues();
  }

  lemma HeadBytes()
    ensures Hi8(0xFFFF) == 0xFF && Lo8(0xFFFF) == 0xFF && Unweak(0xFF) == 0x7F
    ensures Differ(0xCE44, 0x8963) == 0x4727 && Mid8(0x4727) == 0x93
  {
  }

  lemma WordBytes()
    ensures HalfBytes(0x0F81) == [0x81, 0x0F]
    ensures HalfBytes(0xE5C6) == [0xC6, 0xE5]
    ensures HalfBytes(0x5D8F) == [0x8F, 0x5D]
    ensures HalfBytes(0x26D3) == [0xD3, 0x26]
    ensures HalfBytes(0x1525) == [0x25, 0x15]
    ensures HalfBytes(0xCE44) == [0x44, 0xCE]
  {
  }

  lemma SeedBytes()
    ensures Seed(Ppk(0x0F81, 0xE5C6, 0x5D8F, 0x26D3, 0x1525, 0xCE44), Key(), 0xFFFF) == [0xFF, 0x7F, 0xFF, 0x93, 0x81, 0x0F, 0xC6, 0xE5, 0x8F, 0x5D, 0xD3, 0x26, 0x25, 0x15, 0x44, 0xCE]
  {
    hide HalfBytes, Hi8, Lo8, Mid8, Unweak, Differ, KeyWord, Key;
    KeyWords();
    HeadBytes();
    WordBytes();
  }

  /** Both phases: the sixteen bytes of the WEP seed. */
  lemma SeedOfSample()
    ensures WepSeed(Key(), [0x64, 0xF2, 0xEA, 0xED, 0xDC, 0x25], 0x20DC, 0xFD43, 0xFFFF)
      == [0xFF, 0x7F, 0xFF, 0x93, 0x81, 0x0F, 0xC6, 0xE5, 0x8F, 0x5D, 0xD3, 0x26, 0x25, 0x15, 0x44, 0xCE]
  {
    hide Phase1, Substituted, Rotated, Seed, Key;
    Phase1OfSample();
    Substitution();
    Rotation();
    SeedBytes();
  }
}
