/** The Michael code byte by byte: the key block a message is streamed through. */
module Michael {
  import opened Bytes
  import opened MichaelSpec
  import opened Options

  /** A byte moved up by n places, as 8 * n in a shift count. */
  function Up(b: Byte, n: nat): Word {
    match n
    case 0 => b as bv32
    case 1 => b as bv32 << 8
    case 2 => b as bv32 << 16
    case _ => b as bv32 << 24
  }

  function Or(x: Word, y: Word): Word { x | y }

  /** Fewer than four bytes in a word, the first one lowest. */
  function Packed(s: seq<Byte>): Word
    requires |s| < 4
  {
    match |s|
    case 0 => 0
    case 1 => Up(s[0], 0)
    case 2 => Up(s[0], 0) | Up(s[1], 1)
    case _ => Up(s[0], 0) | Up(s[1], 1) | Up(s[2], 2)
  }

  lemma PackMore(s: seq<Byte>, b: Byte)
    requires |s| < 4
    ensures |s| < 3 ==> Or(Packed(s), Up(b, |s|)) == Packed(s + [b])
    ensures |s| == 3 ==> Or(Packed(s), Up(b, 3)) == Word4(s[0], s[1], s[2], b)
  {
    hide Up, Word4;
    NothingBelow(Up(b, 0));
    if |s| == 3 {
      AllFour(s[0], s[1], s[2], b);
    }
  }

  lemma NothingBelow(w: Word)
    ensures 0 | w == w
  {
  }

  lemma AllFour(b0: Byte, b1: Byte, b2: Byte, b3: Byte)
    ensures Up(b0, 0) | Up(b1, 1) | Up(b2, 2) | Up(b3, 3) == Word4(b0, b1, b2, b3)
  {
  }

  /** RTMPTkipGetUInt32. */
  method GetUInt32(p: seq<Byte>, at: nat) returns (res: Word)
    requires at + 4 <= |p|
    ensures res == WordAt(p, at)
  {
    hide Up, Or, Word4;
    res := 0;
    for i := 0 to 4
      invariant i < 4 ==> res == Packed(p[at..at + i])
      invariant i == 4 ==> res == WordAt(p, at)
    {
      PackMore(p[at..at + i], p[at + i]);
      assert p[at..at + i] + [p[at + i]] == p[at..at + i + 1];
      res := Or(res, Up(p[at + i], i));
    }
  }

  function LowByte(w: Word): Byte { (w & 0xFF) as bv8 }
  function Drop(w: Word): Word { w >> 8 }

  /** What is left of w after n bytes. */
  function Down(w: Word, n: nat): Word {
    if n == 0 then w else Drop(Down(w, n - 1))
  }

  lemma DropOn(w: Word)
    ensures Drop(w) == w >> 8
    ensures Drop(w >> 8) == w >> 16
    ensures Drop(w >> 16) == w >> 24
  {
  }

  lemma LowBytes(w: Word)
    ensures WordBytes(w) == [LowByte(w), LowByte(w >> 8), LowByte(w >> 16), LowByte(w >> 24)]
  {
  }

  lemma DownByte(w: Word, n: nat)
    requires n < 4
    ensures LowByte(Down(w, n)) == WordBytes(w)[n]
  {
    hide Drop, LowByte, WordBytes;
    DropOn(w);
    LowBytes(w);
  }

  /** RTMPTkipPutUInt32. */
  method PutUInt32(dst: array<Byte>, at: nat, val0: Word)
    requires at + 4 <= dst.Length
    modifies dst
    ensures dst[..at] == old(dst[..at]) && dst[at..at + 4] == WordBytes(val0) && dst[at + 4..] == old(dst[at + 4..])
  {
    hide WordBytes, LowByte, Drop;
    var val := val0;
    for i := 0 to 4
      invariant val == Down(val0, i)
      invariant dst[..at] == old(dst[..at]) && dst[at + 4..] == old(dst[at + 4..])
      invariant dst[at..at + i] == WordBytes(val0)[..i]
    {
      DownByte(val0, i);
      dst[at + i] := LowByte(val);
      val := Drop(val);
      assert dst[at..at + i + 1] == dst[at..at + i] + [dst[at + i]];
    }
  }

  lemma RunMore(p: Pair, m: seq<Byte>, b: Byte)
    ensures |m| % 4 < 3 ==> Run(p, (m + [b])[..Whole(|m| + 1)]) == Run(p, m[..Whole(|m|)])
    ensures |m| % 4 == 3 ==>
      Run(p, m + [b]) == Absorb(Run(p, m[..Whole(|m|)]), Word4(m[|m| - 3], m[|m| - 2], m[|m| - 1], b))
  {
    hide Absorb, Word4;
    if |m| % 4 == 3 {
      assert (m + [b])[..Whole(|m| + 1) - 4] == m[..Whole(|m|)];
    } else {
      assert (m + [b])[..Whole(|m| + 1)] == m[..Whole(|m|)];
    }
  }

  /** The words still to come in when s is fed after m: where the last partial word begins. */
  function Tail(m: seq<Byte>): (t: seq<Byte>)
    ensures |t| == |m| % 4
  {
    m[Whole(|m|)..]
  }

  lemma TailMore(m: seq<Byte>, b: Byte)
    ensures |m| % 4 < 3 ==> Tail(m + [b]) == Tail(m) + [b] && |m + [b]| % 4 == |m| % 4 + 1
    ensures |m| % 4 == 3 ==> Tail(m + [b]) == [] && |m + [b]| % 4 == 0 && (m + [b])[..Whole(|m + [b]|)] == m + [b]
    ensures |m| % 4 == 3 ==> Tail(m) == [m[|m| - 3], m[|m| - 2], m[|m| - 1]]
  {
  }

  class KeyInfo {
    var K0: Word
    var K1: Word
    var L: Word
    var R: Word
    var M: Word
    var nBytesInM: nat
    var MIC: array<Byte>
    /** The bytes appended since the key was set. */
    ghost var fed: seq<Byte>

    /** L and R have taken the whole words in, M holds the bytes of the word begun. */
    ghost predicate Valid()
      reads this
    {
      && MIC.Length == 8
      && nBytesInM == |fed| % 4
      && M == Packed(Tail(fed))
      && Pair(L, R) == Run(Pair(K0, K1), fed[..Whole(|fed|)])
    }

    constructor ()
      ensures MIC.Length == 8 && fresh(MIC)
    {
      MIC := new Byte[8];
    }

    /** RTMPTkipSetMICKey. */
    method SetMICKey(micKey: seq<Byte>)
      requires |micKey| == 8 && MIC.Length == 8
      modifies this
      ensures Valid() && fed == [] && Pair(K0, K1) == PairOf(micKey) && MIC == old(MIC)
    {
      hide Word4;
      K0 := GetUInt32(micKey, 0);
      K1 := GetUInt32(micKey, 4);
      L, R := K0, K1;
      nBytesInM := 0;
      M := 0;
      fed := [];
    }

    /** The block step of RTMPTkipAppendByte. */
    method Process()
      modifies this`L, this`R
      ensures Pair(L, R) == Absorb(Pair(old(L), old(R)), M)
    {
      hide Add, Xor, Rotate17, SwapBytes, Rotate3, RotateBack2;
      L := Xor(L, M);
      R := Xor(R, Rotate17(L));
      L := Add(L, R);
      R := Xor(R, SwapBytes(L));
      L := Add(L, R);
      R := Xor(R, Rotate3(L));
      L := Add(L, R);
      R := Xor(R, RotateBack2(L));
      L := Add(L, R);
    }

    /** RTMPTkipAppendByte. */
    method AppendByte(b: Byte)
      requires Valid()
      modifies this
      ensures Valid() && fed == old(fed) + [b] && K0 == old(K0) && K1 == old(K1) && MIC == old(MIC)
    {
      hide Run, Absorb, Packed, Up, Word4, Tail, Or;
      PackMore(Tail(fed), b);
      TailMore(fed, b);
      RunMore(Pair(K0, K1), fed, b);
      M := Or(M, Up(b, nBytesInM));
      nBytesInM := nBytesInM + 1;
      fed := fed + [b];
      if nBytesInM >= 4 {
        Process();
        M := 0;
        nBytesInM := 0;
        PackedNone();
      }
    }

    /** RTMPTkipAppend. */
    method Append(src: seq<Byte>)
      requires Valid()
      modifies this
      ensures Valid() && fed == old(fed) + src && K0 == old(K0) && K1 == old(K1) && MIC == old(MIC)
    {
      hide Valid;
      var i := 0;
      while i < |src|
        invariant i <= |src| && Valid() && fed == old(fed) + src[..i]
        invariant K0 == old(K0) && K1 == old(K1) && MIC == old(MIC)
      {
        AppendByte(src[i]);
        i := i + 1;
      }
    }

    /** RTMPTkipGetMIC. */
    method GetMIC()
      requires Valid()
      modifies this, MIC
      ensures MIC == old(MIC) && MIC[..] == PairBytes(Run(Pair(old(K0), old(K1)), Padded(old(fed))))
    {
      hide Valid, Run, WordBytes, Zeros, Padded;
      ghost var m := fed;
      AppendByte(0x5a);
      AppendByte(0);
      AppendByte(0);
      AppendByte(0);
      AppendByte(0);
      ghost var n: nat := 4;
      FourZeros(m);
      while nBytesInM != 0
        invariant Valid() && 4 <= n <= 7 - |m| % 4 && fed == m + [0x5a] + Zeros(n)
        invariant K0 == old(K0) && K1 == old(K1) && MIC == old(MIC)
        decreases 7 - n
      {
        WhenPadded(m, n);
        Described();
        AppendByte(0);
        n := n + 1;
      }
      WhenPadded(m, n);
      Described();
      PutMIC();
    }

    lemma Described()
      requires Valid()
      ensures MIC.Length == 8 && nBytesInM == |fed| % 4 && Pair(L, R) == Run(Pair(K0, K1), fed[..Whole(|fed|)])
    {
    }

    method PutMIC()
      requires MIC.Length == 8
      modifies MIC
      ensures MIC[..] == PairBytes(Pair(L, R))
    {
      hide WordBytes;
      PutUInt32(MIC, 0, L);
      PutUInt32(MIC, 4, R);
      assert MIC[..] == MIC[0..4] + MIC[4..8];
    }
  }

  lemma FourZeros(m: seq<Byte>)
    ensures m + [0x5a] + [0] + [0] + [0] + [0] == m + [0x5a] + Zeros(4)
  {
  }

  /** The message is padded when its length is a multiple of four again. */
  lemma WhenPadded(m: seq<Byte>, n: nat)
    requires 4 <= n <= 7 - |m| % 4
    ensures var p := m + [0x5a] + Zeros(n);
      && p + [0] == m + [0x5a] + Zeros(n + 1)
      && (|p| % 4 == 0 <==> n == 7 - |m| % 4)
      && (|p| % 4 == 0 ==> p == Padded(m) && p[..Whole(|p|)] == p)
  {
    var p := m + [0x5a] + Zeros(n);
    assert Zeros(n) + [0] == Zeros(n + 1);
    assert |p| == |m| + 1 + n;
    var q, r := |m| / 4, |m| % 4;
    assert |p| == 4 * q + (r + 1 + n);
  }

  lemma PackedNone()
    ensures Packed([]) == 0
  {
  }

  // ---------- whole messages ----------

  /** A key set, the message appended in chunks, the code taken: the code of the whole message. */
  method MicOfChunks(info: KeyInfo, micKey: seq<Byte>, chunks: seq<seq<Byte>>)
    requires |micKey| == 8 && info.MIC.Length == 8
    modifies info, info.MIC
    ensures info.MIC == old(info.MIC) && info.MIC[..] == Mic(micKey, Joined(chunks))
  {
    hide *;
    info.SetMICKey(micKey);
    JoinedNone();
    assert chunks[..0] == [];
    for i := 0 to |chunks|
      invariant info.Valid() && info.fed == Joined(chunks[..i]) && info.MIC == old(info.MIC)
      invariant Pair(info.K0, info.K1) == PairOf(micKey)
    {
      JoinedMore(chunks, i);
      info.Append(chunks[i]);
    }
    assert chunks[..|chunks|] == chunks;
    info.GetMIC();
    MicIs(micKey, Joined(chunks));
  }

  lemma JoinedNone()
    ensures Joined([]) == []
  {
  }

  lemma JoinedMore(chunks: seq<seq<Byte>>, i: nat)
    requires i < |chunks|
    ensures Joined(chunks[..i + 1]) == Joined(chunks[..i]) + chunks[i]
  {
    assert chunks[..i + 1][..i] == chunks[..i];
  }

  lemma MicIs(key: seq<Byte>, m: seq<Byte>)
    requires |key| == 8
    ensures PairBytes(Run(PairOf(key), Padded(m))) == Mic(key, m)
  {
  }

  // ---------- frames ----------

  /** The addresses, the priority and three zeros. */
  function Header(da: seq<Byte>, sa: seq<Byte>, priority: Byte): seq<Byte> {
    da + sa + [priority, 0, 0, 0]
  }

  lemma HeaderIs(da: seq<Byte>, sa: seq<Byte>, priority: Byte)
    ensures [] + da + sa + [priority, 0, 0, 0] == Header(da, sa, priority)
  {
    assert [] + da == da;
  }

  /** Where each field of the header stands. */
  lemma HeaderFields(da: seq<Byte>, sa: seq<Byte>, priority: Byte)
    requires |da| == |sa| == 6
    ensures var h := Header(da, sa, priority);
      |h| == 16 && h[0..6] == da && h[6..12] == sa && h[12] == priority && h[13] == h[14] == h[15] == 0
  {
  }

  /** RTMPInitMICEngine. */
  method InitMICEngine(info: KeyInfo, da: seq<Byte>, sa: seq<Byte>, priority: Byte, micKey: seq<Byte>)
    requires |micKey| == 8 && |da| == |sa| == 6 && info.MIC.Length == 8
    modifies info
    ensures info.Valid() && info.fed == Header(da, sa, priority) && Pair(info.K0, info.K1) == PairOf(micKey) && info.MIC == old(info.MIC)
  {
    hide PairOf, KeyInfo.Valid, Header;
    HeaderIs(da, sa, priority);
    info.SetMICKey(micKey);
    info.Append(da);
    info.Append(sa);
    info.Append([priority, 0, 0, 0]);
  }

  /** RTMPTkipCompareMICValue: the data, then the code sent with it. The code is right under exactly
      one key. */
  method CompareMICValue(info: KeyInfo, src: seq<Byte>, da: seq<Byte>, sa: seq<Byte>, micKey: seq<Byte>, priority: Byte, len: nat)
    returns (ok: bool)
    requires |micKey| == 8 && |da| == |sa| == 6 && info.MIC.Length == 8 && len + 8 <= |src|
    modifies info, info.MIC
    ensures ok <==> src[len..len + 8] == Mic(micKey, Header(da, sa, priority) + src[..len])
    ensures ok <==> micKey == KeyFor(src[len..len + 8], Header(da, sa, priority) + src[..len])
  {
    hide Header, PairOf, Run, Padded, Unrun, PairBytes;
    InitMICEngine(info, da, sa, priority, micKey);
    info.Append(src[..len]);
    var oldMic := src[len..len + 8];
    info.GetMIC();
    ok := info.MIC[..] == oldMic;
    MicIsBijectiveInKey(micKey, oldMic, Header(da, sa, priority) + src[..len]);
  }

  datatype Encapsulation = NoEncap | Encap(bytes: seq<Byte>)

  /** Four bytes more when the frame carries a VLAN tag. */
  function VlanOffset(pkt: seq<Byte>): nat
    requires |pkt| >= 14
  {
    if pkt[12] == 0x81 && pkt[13] == 0x00 then 4 else 0
  }

  /** The data the frame will carry after its header. */
  function Carried(pkt: seq<Byte>, encap: Encapsulation): seq<Byte>
    requires |pkt| >= 14 && |pkt| >= 14 + VlanOffset(pkt) && (encap.Encap? ==> |encap.bytes| >= 6)
  {
    var v := VlanOffset(pkt);
    (if encap.Encap? then encap.bytes[..6] + pkt[12 + v..14 + v] else []) + pkt[14 + v..]
  }

  /** An Ethernet frame of its fields; the tag of a VLAN is 81 00 and two bytes more. */
  function EthernetFrame(da: seq<Byte>, sa: seq<Byte>, tag: Option<seq<Byte>>, kind: seq<Byte>, payload: seq<Byte>): seq<Byte> {
    da + sa + (if tag.Some? then [0x81, 0x00] + tag.value else []) + kind + payload
  }

  /** The encapsulation bytes, the type and the payload are carried, and neither address nor tag is. */
  lemma CarriedOfFrame(da: seq<Byte>, sa: seq<Byte>, tag: Option<seq<Byte>>, kind: seq<Byte>, payload: seq<Byte>, encap: Encapsulation)
    requires |da| == |sa| == 6 && |kind| == 2 && (tag.Some? ==> |tag.value| == 2)
    requires tag.None? ==> kind != [0x81, 0x00]
    requires encap.Encap? ==> |encap.bytes| >= 6
    ensures var pkt := EthernetFrame(da, sa, tag, kind, payload);
      && |pkt| >= 14 + VlanOffset(pkt)
      && Carried(pkt, encap) == (if encap.Encap? then encap.bytes[..6] + kind else []) + payload
  {
    var pkt := EthernetFrame(da, sa, tag, kind, payload);
    var v := if tag.Some? then 4 else 0;
    if tag.Some? {
      assert pkt[12] == 0x81 && pkt[13] == 0x00;
    } else {
      assert pkt[12] == kind[0] && pkt[13] == kind[1];
      assert kind == [kind[0], kind[1]];
    }
    assert pkt[12 + v..14 + v] == kind && pkt[14 + v..] == payload;
  }

  /** RTMPCalculateMICValue, for the frame's first buffer. */
  method CalculateMICValue(info: KeyInfo, pkt: seq<Byte>, encap: Encapsulation, priority: Byte, txMic: seq<Byte>)
    requires |txMic| == 8 && info.MIC.Length == 8
    requires |pkt| >= 14 && |pkt| >= 14 + VlanOffset(pkt) && (encap.Encap? ==> |encap.bytes| >= 6)
    modifies info, info.MIC
    ensures info.MIC == old(info.MIC)
    ensures info.MIC[..] == Mic(txMic, Header(pkt[..6], pkt[6..12], priority) + Carried(pkt, encap))
  {
    hide Header, PairOf, Run, Padded, PairBytes, KeyInfo.Valid, Mic;
    var v := if pkt[12] == 0x81 && pkt[13] == 0x00 then 4 else 0;
    InitMICEngine(info, pkt[..6], pkt[6..12], priority, txMic);
    ghost var h := info.fed;
    if encap.Encap? {
      info.Append(encap.bytes[..6]);
      info.Append(pkt[12 + v..14 + v]);
    }
    if |pkt| > 14 + v {
      info.Append(pkt[14 + v..]);
    }
    assert info.fed == h + Carried(pkt, encap);
    MicIs(txMic, info.fed);
    info.GetMIC();
  }

  /** What one side computes the other accepts, given the same addresses, priority and key. */
  lemma SentIsAccepted(pkt: seq<Byte>, encap: Encapsulation, priority: Byte, key: seq<Byte>, src: seq<Byte>)
    requires |key| == 8
    requires |pkt| >= 14 && |pkt| >= 14 + VlanOffset(pkt) && (encap.Encap? ==> |encap.bytes| >= 6)
    requires src == Carried(pkt, encap) + Mic(key, Header(pkt[..6], pkt[6..12], priority) + Carried(pkt, encap))
    ensures var len := |src| - 8;
      len >= 0 && forall k: seq<Byte> :: |k| == 8 ==>
        (src[len..len + 8] == Mic(k, Header(pkt[..6], pkt[6..12], priority) + src[..len]) <==> k == key)
  {
    hide Header, Carried, Mic, KeyFor;
    var len := |src| - 8;
    var m := Header(pkt[..6], pkt[6..12], priority) + src[..len];
    assert src[..len] == Carried(pkt, encap);
    assert src[len..len + 8] == Mic(key, m);
    MicIsBijectiveInKey(key, Mic(key, m), m);
    forall k: seq<Byte> | |k| == 8 ensures Mic(k, m) == Mic(key, m) <==> k == key {
      MicIsBijectiveInKey(k, Mic(key, m), m);
    }
  }
}
