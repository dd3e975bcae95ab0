/** What the parts of the Michael block function do to bytes and bits, and two codes published with IEEE 802.11i-2004. */
module MichaelSamples {

  import opened Bytes
  import opened MichaelSpec

  // ---------- the parts of the block function ----------

  /** XSWAP exchanges the bytes of each half. */
  lemma SwapExchangesBytes(w: Word)
    ensures var b := WordBytes(w); WordBytes(SwapBytes(w)) == [b[1], b[0], b[3], b[2]]
  {
  }

  /** In a double-width word, what leaves at the top comes back at the bottom. */
  lemma Rotate17IsCircular(x: Word)
    ensures var wide := (x as bv64) << 17; Rotate17(x) == (wide & 0xFFFF_FFFF) as bv32 | (wide >> 32) as bv32
  {
  }

  lemma Rotate3IsCircular(x: Word)
    ensures var wide := (x as bv64) << 3; Rotate3(x) == (wide & 0xFFFF_FFFF) as bv32 | (wide >> 32) as bv32
  {
  }

  /** Two places to the right are thirty to the left. */
  lemma RotateBack2IsCircular(x: Word)
    ensures var wide := (x as bv64) << 30; RotateBack2(x) == (wide & 0xFFFF_FFFF) as bv32 | (wide >> 32) as bv32
  {
  }

  // ---------- one word at a time ----------

  lemma QuarterIs(l: Word, r: Word, v: Word, r1: Word, l1: Word)
    requires Xor(r, v) == r1 && Add(l, r1) == l1
    ensures Quarter(Pair(l, r), v) == Pair(l1, r1)
  {
    hide Xor, Add;
  }

  /** A word taken in, by its intermediate values: rotation, right half, left half of each quarter. */
  lemma AbsorbIs(l: Word, r: Word, w: Word, l0: Word, v1: Word, r1: Word, l1: Word, v2: Word, r2: Word, l2: Word,
                 v3: Word, r3: Word, l3: Word, v4: Word, r4: Word, l4: Word)
    requires Xor(l, w) == l0
    requires Rotate17(l0) == v1 && Xor(r, v1) == r1 && Add(l0, r1) == l1
    requires SwapBytes(l1) == v2 && Xor(r1, v2) == r2 && Add(l1, r2) == l2
    requires Rotate3(l2) == v3 && Xor(r2, v3) == r3 && Add(l2, r3) == l3
    requires RotateBack2(l3) == v4 && Xor(r3, v4) == r4 && Add(l3, r4) == l4
    ensures Absorb(Pair(l, r), w) == Pair(l4, r4)
  {
    hide Xor, Add, Rotate17, SwapBytes, Rotate3, RotateBack2, Quarter;
    QuarterIs(l0, r, v1, r1, l1);
    QuarterIs(l1, r1, v2, r2, l2);
    QuarterIs(l2, r2, v3, r3, l3);
    QuarterIs(l3, r3, v4, r4, l4);
  }

  lemma RunOn(p: Pair, m: seq<Byte>, b0: Byte, b1: Byte, b2: Byte, b3: Byte)
    requires |m| % 4 == 0
    ensures Run(p, m + [b0, b1, b2, b3]) == Absorb(Run(p, m), Word4(b0, b1, b2, b3))
  {
    hide Absorb, Word4;
    var n := m + [b0, b1, b2, b3];
    assert Whole(|n|) == |n| && n[..Whole(|n|) - 4] == m;
  }

  lemma RunNone(p: Pair)
    ensures Run(p, []) == p
  {
  }

  // ---------- no bytes ----------

  lemma EmptyMessageWord0()
    ensures Absorb(Pair(0x00000000, 0x00000000), Word4(0x5A, 0x00, 0x00, 0x00))
      == Pair(0xC000134D, 0xEAA1301E)
  {
    assert Word4(0x5A, 0x00, 0x00, 0x00) == 0x0000005A;
    AbsorbIs(0x00000000, 0x00000000, 0x0000005A, 0x0000005A,
      0x00B40000, 0x00B40000, 0x00B4005A,
      0xB4005A00, 0xB4B45A00, 0xB5685A5A,
      0xAB42D2D5, 0x1FF688D5, 0xD55EE32F,
      0xF557B8CB, 0xEAA1301E, 0xC000134D);
  }

  lemma EmptyMessageWord1()
    ensures Absorb(Pair(0xC000134D, 0xEAA1301E), Word4(0x00, 0x00, 0x00, 0x00))
      == Pair(0x1C5C9282, 0xB830D1A1)
  {
    assert Word4(0x00, 0x00, 0x00, 0x00) == 0x00000000;
    AbsorbIs(0xC000134D, 0xEAA1301E, 0x00000000, 0xC000134D,
      0x269B8000, 0xCC3AB01E, 0x8C3AC36B,
      0x3A8C6BC3, 0xF6B6DBDD, 0x82F19F48,
      0x178CFA44, 0xE13A2199, 0x642BC0E1,
      0x590AF038, 0xB830D1A1, 0x1C5C9282);
  }

  lemma EmptyMessageBytes()
    ensures PairOf([0x00, 0x00, 0x00, 0x00, 0x00, 0x00, 0x00, 0x00]) == Pair(0x00000000, 0x00000000)
    ensures PairBytes(Pair(0x1C5C9282, 0xB830D1A1)) == [0x82, 0x92, 0x5C, 0x1C, 0xA1, 0xD1, 0x30, 0xB8]
  {
  }

  lemma EmptyMessagePadded()
    ensures Padded([]) == [] + [0x5A, 0x00, 0x00, 0x00] + [0x00, 0x00, 0x00, 0x00]
  {
  }

  /** The code of no bytes at all under the key of zeros. */
  lemma EmptyMessage()
    ensures Mic([0x00, 0x00, 0x00, 0x00, 0x00, 0x00, 0x00, 0x00], []) == [0x82, 0x92, 0x5C, 0x1C, 0xA1, 0xD1, 0x30, 0xB8]
  {
    hide Run, Absorb, Word4, Padded, PairOf, PairBytes;
    EmptyMessageBytes();
    EmptyMessagePadded();
    var p := Pair(0x00000000, 0x00000000);
    RunNone(p);
    RunOn(p, [], 0x5A, 0x00, 0x00, 0x00);
    EmptyMessageWord0();
    RunOn(p, [] + [0x5A, 0x00, 0x00, 0x00], 0x00, 0x00, 0x00, 0x00);
    EmptyMessageWord1();
  }

  // ---------- seven letters ----------

  lemma NamedMessageWord0()
    ensures Absorb(Pair(0x05105ED5, 0x86891210), Word4(0x4D, 0x69, 0x63, 0x68))
      == Pair(0xF4774C9A, 0xB4278A40)
  {
    assert Word4(0x4D, 0x69, 0x63, 0x68) == 0x6863694D;
    AbsorbIs(0x05105ED5, 0x86891210, 0x6863694D, 0x6D733798,
      0x6F30DAE6, 0xE9B9C8F6, 0x572D008E,
      0x2D578E00, 0xC4EE46F6, 0x1C1B4784,
      0xE0DA3C20, 0x24347AD6, 0x404FC25A,
      0x9013F096, 0xB4278A40, 0xF4774C9A);
  }

  lemma NamedMessageWord1()
    ensures Absorb(Pair(0xF4774C9A, 0xB4278A40), Word4(0x61, 0x65, 0x6C, 0x5A))
      == Pair(0x4E304879, 0xAA360847)
  {
    assert Word4(0x61, 0x65, 0x6C, 0x5A) == 0x5A6C6561;
    AbsorbIs(0xF4774C9A, 0xB4278A40, 0x5A6C6561, 0xAE1B29FB,
      0x53F75C36, 0xE7D0D676, 0x95EC0071,
      0xEC957100, 0x0B45A776, 0xA131A7E7,
      0x098D3F3D, 0x02C8984B, 0xA3FA4032,
      0xA8FE900C, 0xAA360847, 0x4E304879);
  }

  lemma NamedMessageWord2()
    ensures Absorb(Pair(0x4E304879, 0xAA360847), Word4(0x00, 0x00, 0x00, 0x00))
      == Pair(0x122B940A, 0x46A5CA4E)
  {
    assert Word4(0x00, 0x00, 0x00, 0x00) == 0x00000000;
    AbsorbIs(0x4E304879, 0xAA360847, 0x00000000, 0x4E304879,
      0x90F29C60, 0x3AC49427, 0x88F4DCA0,
      0xF488A0DC, 0xCE4C34FB, 0x5741119B,
      0xBA088CDA, 0x7444B821, 0xCB85C9BC,
      0x32E1726F, 0x46A5CA4E, 0x122B940A);
  }

  lemma NamedMessageBytes()
    ensures PairOf([0xD5, 0x5E, 0x10, 0x05, 0x10, 0x12, 0x89, 0x86]) == Pair(0x05105ED5, 0x86891210)
    ensures PairBytes(Pair(0x122B940A, 0x46A5CA4E)) == [0x0A, 0x94, 0x2B, 0x12, 0x4E, 0xCA, 0xA5, 0x46]
  {
  }

  lemma NamedMessagePadded()
    ensures Padded([0x4D, 0x69, 0x63, 0x68, 0x61, 0x65, 0x6C]) == [] + [0x4D, 0x69, 0x63, 0x68] + [0x61, 0x65, 0x6C, 0x5A] + [0x00, 0x00, 0x00, 0x00]
  {
  }

  /** The code of the seven letters of "Michael". */
  lemma NamedMessage()
    ensures Mic([0xD5, 0x5E, 0x10, 0x05, 0x10, 0x12, 0x89, 0x86], [0x4D, 0x69, 0x63, 0x68, 0x61, 0x65, 0x6C]) == [0x0A, 0x94, 0x2B, 0x12, 0x4E, 0xCA, 0xA5, 0x46]
  {
    hide Run, Absorb, Word4, Padded, PairOf, PairBytes;
    NamedMessageBytes();
    NamedMessagePadded();
    var p := Pair(0x05105ED5, 0x86891210);
    RunNone(p);
    RunOn(p, [], 0x4D, 0x69, 0x63, 0x68);
    NamedMessageWord0();
    RunOn(p, [] + [0x4D, 0x69, 0x63, 0x68], 0x61, 0x65, 0x6C, 0x5A);
    NamedMessageWord1();
    RunOn(p, [] + [0x4D, 0x69, 0x63, 0x68] + [0x61, 0x65, 0x6C, 0x5A], 0x00, 0x00, 0x00, 0x00);
    NamedMessageWord2();
  }
}
