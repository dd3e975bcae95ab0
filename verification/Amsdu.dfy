/** Aggregates of subframes (section 8.3.2.2 of IEEE 802.11-2012): building one, and the loop that
    splits it and announces every payload. */
module Amsdu {

  type Octet = n: nat | n < 256

  const LENGTH_802_3: nat := 14
  const LENGTH_802_1_H: nat := 8

  const SNAP_802_1H: seq<Octet> := [0xaa, 0xaa, 0x03, 0x00, 0x00, 0x00]
  const SNAP_BRIDGE_TUNNEL: seq<Octet> := [0xaa, 0xaa, 0x03, 0x00, 0x00, 0xf8]
  const IPX: seq<Octet> := [0x81, 0x37]
  const APPLE_TALK: seq<Octet> := [0x80, 0xf3]
  const EAPOL: seq<Octet> := [0x88, 0x8e]

  /** A subframe before it is aggregated. The shortest payload has room for an LLC/SNAP header. */
  datatype Subframe = Subframe(da: seq<Octet>, sa: seq<Octet>, payload: seq<Octet>)

  predicate IsSubframe(f: Subframe) {
    |f.da| == 6 && |f.sa| == 6 && LENGTH_802_1_H <= |f.payload| < 0x1_0000
  }

  /** What is announced for a subframe, and whether its payload goes to the EAPOL machine too. */
  datatype Msdu = Msdu(packet: seq<Octet>, eapol: bool)

  // ---------- building ----------

  function RoundUp(n: nat): (r: nat)
    ensures n <= r < n + 4 && r % 4 == 0
  {
    (n + 3) / 4 * 4
  }

  function Zeros(n: nat): (s: seq<Octet>)
    ensures |s| == n
  {
    seq(n, _ => 0)
  }

  /** A length in two bytes, high byte first. */
  function LengthField(n: nat): (s: seq<Octet>)
    requires n < 0x1_0000
    ensures |s| == 2
  {
    [n / 256, n % 256]
  }

  function Framed(f: Subframe): (s: seq<Octet>)
    requires IsSubframe(f)
    ensures |s| == LENGTH_802_3 + |f.payload|
  {
    f.da + f.sa + LengthField(|f.payload|) + f.payload
  }

  function Pad(s: seq<Octet>): (r: seq<Octet>)
    ensures |r| == RoundUp(|s|)
  {
    s + Zeros(RoundUp(|s|) - |s|)
  }

  /** The subframes one after another, each padded to a multiple of four, the last one if wanted. */
  function Build(fs: seq<Subframe>, padLast: bool): seq<Octet>
    requires forall f :: f in fs ==> IsSubframe(f)
  {
    if fs == [] then []
    else if |fs| == 1 then (if padLast then Pad(Framed(fs[0])) else Framed(fs[0]))
    else Pad(Framed(fs[0])) + Build(fs[1..], padLast)
  }

  // ---------- splitting ----------

  /** Whether the LLC/SNAP header of the payload is taken off. */
  predicate RemovesLlc(payload: seq<Octet>)
    requires |payload| >= LENGTH_802_1_H
  {
    if payload[..6] == SNAP_802_1H then payload[6..8] != IPX && payload[6..8] != APPLE_TALK
    else payload[..6] == SNAP_BRIDGE_TUNNEL
  }

  /** The type field of the converted header. */
  function TypeField(payload: seq<Octet>): (t: seq<Octet>)
    requires LENGTH_802_1_H <= |payload| < 0x1_0000
    ensures |t| == 2
  {
    if RemovesLlc(payload) then payload[6..8] else LengthField(|payload|)
  }

  /** What the splitter announces: an Ethernet frame when the LLC/SNAP header is taken off, the bare
      payload otherwise. */
  function Converted(f: Subframe): Msdu
    requires IsSubframe(f)
  {
    Msdu(if RemovesLlc(f.payload) then f.da + f.sa + TypeField(f.payload) + f.payload[8..] else f.payload,
         TypeField(f.payload) == EAPOL)
  }

  function ConvertAll(fs: seq<Subframe>): (ms: seq<Msdu>)
    requires forall f :: f in fs ==> IsSubframe(f)
    ensures |ms| == |fs|
  {
    if fs == [] then [] else [Converted(fs[0])] + ConvertAll(fs[1..])
  }

  /** The length field of the front subframe. */
  function Length(s: seq<Octet>): (n: nat)
    requires |s| >= LENGTH_802_3
    ensures n < 0x1_0000
  {
    var high: nat, low: nat := s[12], s[13];
    256 * high + low
  }

  /** The subframe at the front of s. */
  function Front(s: seq<Octet>): Subframe
    requires |s| >= LENGTH_802_3 && |s| >= LENGTH_802_3 + Length(s)
  {
    Subframe(s[..6], s[6..12], s[LENGTH_802_3..LENGTH_802_3 + Length(s)])
  }

  /** The front subframe is whole and not too long. */
  predicate Takes(s: seq<Octet>) {
    |s| > LENGTH_802_3 && |s| >= LENGTH_802_3 + Length(s) && Length(s) <= 1518
  }

  /** Whether a subframe of that padded size lets the loop go on to the bytes behind it. */
  predicate GoesOn(s: seq<Octet>)
    requires Takes(s)
  {
    var z := RoundUp(LENGTH_802_3 + Length(s));
    32 <= z <= 1528 && |s| > z
  }

  /** Where the loop goes on. */
  function Rest(s: seq<Octet>): (r: seq<Octet>)
    requires Takes(s) && GoesOn(s)
    ensures |r| < |s| && Length(s) >= LENGTH_802_1_H
  {
    s[RoundUp(LENGTH_802_3 + Length(s))..]
  }

  /** Whether the eight bytes behind the front header, which a shorter payload does not fill, make
      the converter take off an LLC/SNAP header. */
  predicate FrontStrips(s: seq<Octet>) {
    |s| >= LENGTH_802_3 + LENGTH_802_1_H && RemovesLlc(s[LENGTH_802_3..LENGTH_802_3 + LENGTH_802_1_H])
  }

  /** How far the front subframe is read: six bytes behind the header are compared in any case, two
      more if those begin an LLC/SNAP header. Of a payload shorter than that header the size wraps
      around 2^16 when the header is taken off, and that many bytes go to the EAPOL machine. */
  function ReadEnd(s: seq<Octet>): nat
    requires Takes(s)
  {
    var end := LENGTH_802_3 + Length(s);
    if |s| < 20 then 20
    else if s[14..20] != SNAP_802_1H && s[14..20] != SNAP_BRIDGE_TUNNEL then (if end < 20 then 20 else end)
    else if |s| < 22 then 22
    else if end < 22 && FrontStrips(s) && s[20..22] == EAPOL then end + 0x1_0000
    else if end < 22 then 22
    else end
  }

  /** Every read of the loop is inside the frame. */
  predicate ReadsInside(s: seq<Octet>)
    decreases |s|
  {
    Takes(s) ==> ReadEnd(s) <= |s| && (GoesOn(s) ==> ReadsInside(Rest(s)))
  }

  /** What is announced for the front subframe. */
  function Announced(s: seq<Octet>): Msdu
    requires Takes(s) && ReadEnd(s) <= |s|
  {
    var n := Length(s);
    if FrontStrips(s) then Msdu((s[..12] + s[20..])[..n + 6], s[20..22] == EAPOL)
    else Msdu(s[LENGTH_802_3..LENGTH_802_3 + n], LengthField(n) == EAPOL)
  }

  /** deaggregate_AMSDU_announce. */
  function Split(s: seq<Octet>): seq<Msdu>
    requires ReadsInside(s)
    decreases |s|
  {
    if !Takes(s) then [] else [Announced(s)] + (if GoesOn(s) then Split(Rest(s)) else [])
  }

  /** What is left when the loop stops. */
  function LastPlace(s: seq<Octet>): seq<Octet>
    decreases |s|
  {
    if Takes(s) && GoesOn(s) then LastPlace(Rest(s)) else s
  }

  /** The loop counts a subframe that it does not announce: the last one, too long or cut off. */
  predicate StopsOnSize(s: seq<Octet>) {
    var e := LastPlace(s);
    |e| > LENGTH_802_3 && !Takes(e)
  }

  lemma SizeStop(s: seq<Octet>)
    ensures StopsOnSize(s) <==>
      if !Takes(s) then |s| > LENGTH_802_3 else GoesOn(s) && StopsOnSize(Rest(s))
  {
  }

  lemma RoomyReadsInside(s: seq<Octet>)
    requires Takes(s) && Length(s) >= LENGTH_802_1_H
    ensures ReadEnd(s) <= |s|
  {
  }

  /** A payload too short for an LLC/SNAP header, by sizes and bytes: the six bytes compared are there;
      if they begin such a header, so are the next two, and unless those say EAPOL that is all. */
  predicate StubInside(e: seq<Octet>)
    requires |e| >= LENGTH_802_3
  {
    && |e| >= 20
    && (e[14..20] == SNAP_802_1H || e[14..20] == SNAP_BRIDGE_TUNNEL ==>
          |e| >= 22 && (e[20..22] == EAPOL ==> |e| >= LENGTH_802_3 + Length(e) + 0x1_0000))
  }

  lemma StubReadsInsideIff(e: seq<Octet>)
    requires Takes(e) && Length(e) < LENGTH_802_1_H
    ensures ReadEnd(e) <= |e| <==> StubInside(e)
  {
    hide Length;
    if |e| >= 22 {
      var eight := e[LENGTH_802_3..LENGTH_802_3 + LENGTH_802_1_H];
      assert forall k :: 0 <= k < 8 ==> eight[k] == e[14 + k];
      assert eight[..6] == e[14..20] && eight[6..8] == e[20..22];
      assert EAPOL[0] != IPX[0] && EAPOL[0] != APPLE_TALK[0];
    }
  }

  /** Whatever was received, the reads stay inside the frame exactly when the place where the loop
      stops does not hold a payload too short for an LLC/SNAP header with too little behind it. */
  lemma {:induction false} ReadsInsideIff(s: seq<Octet>)
    ensures ReadsInside(s) <==>
      (var e := LastPlace(s); Takes(e) && Length(e) < LENGTH_802_1_H ==> StubInside(e))
    decreases |s|
  {
    hide ReadEnd, RoundUp, Length, StubInside;
    if Takes(s) {
      if Length(s) >= LENGTH_802_1_H { RoomyReadsInside(s); } else { StubReadsInsideIff(s); }
      if GoesOn(s) { ReadsInsideIff(Rest(s)); }
    }
  }

  /** A last payload of one byte with nothing behind it is read past its end. */
  lemma LastByteIsReadPast(header: seq<Octet>, b: Octet)
    requires |header| == 12
    ensures !ReadsInside(header + [0, 1, b])
  {
    var s := header + [0, 1, b];
    assert Takes(s) && ReadEnd(s) == 20;
  }

  /** An empty payload with an EAPOL header behind it: the size left wraps, and the read ends
      2^16 bytes behind the payload. */
  lemma EmptyEapolIsReadPast(header: seq<Octet>)
    requires |header| == 12
    ensures var s := header + [0, 0] + SNAP_802_1H + EAPOL;
      |s| == 22 && Takes(s) && ReadEnd(s) == LENGTH_802_3 + 0x1_0000 && !ReadsInside(s)
  {
    var s := header + [0, 0] + SNAP_802_1H + EAPOL;
    assert Length(s) == 0;
    assert s[14..20] == SNAP_802_1H && s[20..22] == EAPOL;
    var eight := s[LENGTH_802_3..LENGTH_802_3 + LENGTH_802_1_H];
    assert eight[..6] == SNAP_802_1H && eight[6..8] == EAPOL;
    assert EAPOL[0] != IPX[0] && EAPOL[1] != APPLE_TALK[1];
  }

  /** A payload with room for the header is announced as its conversion. */
  lemma RoomyIsConverted(s: seq<Octet>)
    requires Takes(s) && Length(s) >= LENGTH_802_1_H
    ensures ReadEnd(s) <= |s| && Announced(s) == Converted(Front(s))
  {
    hide ReadEnd, Length, RemovesLlc;
    RoomyReadsInside(s);
    var n := Length(s);
    var payload := s[LENGTH_802_3..LENGTH_802_3 + n];
    SameStrips(s);
    if RemovesLlc(payload) {
      assert payload[6..8] == s[20..22];
      assert s[..6] + s[6..12] + payload[6..8] + payload[8..] == (s[..12] + s[20..])[..n + 6];
    }
  }

  lemma SameStrips(s: seq<Octet>)
    requires Takes(s) && Length(s) >= LENGTH_802_1_H
    ensures FrontStrips(s) == RemovesLlc(s[LENGTH_802_3..LENGTH_802_3 + Length(s)])
  {
    hide Length;
    var payload, eight := s[LENGTH_802_3..LENGTH_802_3 + Length(s)], s[LENGTH_802_3..LENGTH_802_3 + LENGTH_802_1_H];
    assert forall k :: 0 <= k < 8 ==> payload[k] == s[14 + k] == eight[k];
    assert payload[..6] == eight[..6] && payload[6..8] == eight[6..8];
  }

  // ---------- splitting what was built ----------

  /** How many of the subframes the loop announces: up to one that is too long, and through one whose
      padded size is out of range. */
  function Reached(fs: seq<Subframe>): (n: nat)
    ensures n <= |fs|
  {
    if fs == [] || |fs[0].payload| > 1518 then 0
    else if 32 <= RoundUp(LENGTH_802_3 + |fs[0].payload|) <= 1528 then 1 + Reached(fs[1..])
    else 1
  }

  lemma FrontOfFramed(f: Subframe, rest: seq<Octet>)
    requires IsSubframe(f)
    ensures var s := Framed(f) + rest; Length(s) == |f.payload| && |s| >= LENGTH_802_3 + Length(s) && Front(s) == f
  {
    var s := Framed(f) + rest;
    assert s[..6] == f.da && s[6..12] == f.sa;
    assert s[LENGTH_802_3..LENGTH_802_3 + |f.payload|] == f.payload;
  }

  /** The front of an aggregate is its first subframe, and the rest of the aggregate begins where
      that one's padding ends. */
  lemma BuildFront(fs: seq<Subframe>, padLast: bool)
    requires fs != [] && forall f :: f in fs ==> IsSubframe(f)
    ensures var s := Build(fs, padLast); var z := RoundUp(LENGTH_802_3 + |fs[0].payload|);
      && |s| >= LENGTH_802_3 + |fs[0].payload| && Length(s) == |fs[0].payload| && Front(s) == fs[0]
      && (|fs| == 1 ==> |s| <= z)
      && (|fs| > 1 ==> |s| > z && s[z..] == Build(fs[1..], padLast))
  {
    hide Build, RoundUp, Front, Length;
    if |fs| == 1 { BuildOne(fs, padLast); } else { BuildMore(fs, padLast); }
  }

  lemma BuildOne(fs: seq<Subframe>, padLast: bool)
    requires |fs| == 1 && forall f :: f in fs ==> IsSubframe(f)
    ensures var s := Build(fs, padLast); var n := |fs[0].payload|;
      LENGTH_802_3 + n <= |s| <= RoundUp(LENGTH_802_3 + n) && Length(s) == n && Front(s) == fs[0]
  {
    hide Framed, Front, Length;
    assert fs[0] in fs;
    var f := Framed(fs[0]);
    FrontOfFramed(fs[0], if padLast then Zeros(RoundUp(|f|) - |f|) else []);
    assert f + [] == f;
  }

  lemma BuildMore(fs: seq<Subframe>, padLast: bool)
    requires |fs| > 1 && forall f :: f in fs ==> IsSubframe(f)
    ensures var s := Build(fs, padLast); var n := |fs[0].payload|; var z := RoundUp(LENGTH_802_3 + n);
      |s| > z && Length(s) == n && Front(s) == fs[0] && s[z..] == Build(fs[1..], padLast)
  {
    hide Framed, Front, Length, Build;
    assert fs[0] in fs;
    var f := Framed(fs[0]);
    var gap := Zeros(RoundUp(|f|) - |f|);
    var rest := Build(fs[1..], padLast);
    BuildLong(fs[1..], padLast);
    BuildStep(fs, padLast);
    FrontOfFramed(fs[0], gap + rest);
    Behind(f, gap, rest);
  }

  lemma BuildStep(fs: seq<Subframe>, padLast: bool)
    requires |fs| > 1 && forall f :: f in fs ==> IsSubframe(f)
    ensures IsSubframe(fs[0])
    ensures Build(fs, padLast) == Framed(fs[0]) + Zeros(RoundUp(|Framed(fs[0])|) - |Framed(fs[0])|) + Build(fs[1..], padLast)
  {
    assert fs[0] in fs;
  }

  lemma Behind(f: seq<Octet>, gap: seq<Octet>, rest: seq<Octet>)
    ensures f + gap + rest == f + (gap + rest) && (f + gap + rest)[|f| + |gap|..] == rest
  {
  }

  lemma BuildLong(fs: seq<Subframe>, padLast: bool)
    requires fs != [] && forall f :: f in fs ==> IsSubframe(f)
    ensures |Build(fs, padLast)| > LENGTH_802_3
  {
    assert fs[0] in fs;
  }

  /** For every list of subframes, last one padded or not, splitting the aggregate announces exactly
      the reached ones, in order. */
  lemma {:induction false} SplitUndoesBuild(fs: seq<Subframe>, padLast: bool)
    requires forall f :: f in fs ==> IsSubframe(f)
    ensures ReadsInside(Build(fs, padLast))
    ensures Split(Build(fs, padLast)) == ConvertAll(fs[..Reached(fs)])
  {
    hide Converted, Build, Front, Length, Announced, ReadEnd, RoundUp;
    if fs == [] {
      assert Build(fs, padLast) == [] by { BuildNone(padLast); }
    } else {
      BuildFront(fs, padLast);
      assert fs[0] in fs;
      var s := Build(fs, padLast);
      if Takes(s) { RoomyIsConverted(s); }
      if |fs| > 1 {
        SplitUndoesBuild(fs[1..], padLast);
      }
      var n := Reached(fs);
      if n > 0 {
        assert fs[..n][1..] == fs[1..][..n - 1];
      }
    }
  }

  lemma BuildNone(padLast: bool)
    ensures Build([], padLast) == []
  {
  }

  /** No payload too long, and every subframe but the last of a padded size in range. */
  predicate Fitting(fs: seq<Subframe>) {
    && (forall i :: 0 <= i < |fs| ==> |fs[i].payload| <= 1518)
    && (forall i :: 0 <= i < |fs| - 1 ==> 32 <= RoundUp(LENGTH_802_3 + |fs[i].payload|) <= 1528)
  }

  lemma FittingTail(fs: seq<Subframe>)
    requires |fs| > 1
    ensures Fitting(fs) <==>
      |fs[0].payload| <= 1518 && 32 <= RoundUp(LENGTH_802_3 + |fs[0].payload|) <= 1528 && Fitting(fs[1..])
  {
    hide RoundUp;
    var t := fs[1..];
    assert forall i :: 0 <= i < |t| ==> t[i] == fs[i + 1];
    if Fitting(t) && |fs[0].payload| <= 1518 && 32 <= RoundUp(LENGTH_802_3 + |fs[0].payload|) <= 1528 {
      forall i | 0 <= i < |fs| ensures |fs[i].payload| <= 1518 {
        if i > 0 { assert fs[i] == t[i - 1]; }
      }
      forall i | 0 <= i < |fs| - 1 ensures 32 <= RoundUp(LENGTH_802_3 + |fs[i].payload|) <= 1528 {
        if i > 0 { assert fs[i] == t[i - 1]; }
      }
    }
  }

  lemma {:induction false} AllReachedIff(fs: seq<Subframe>)
    ensures Reached(fs) == |fs| <==> Fitting(fs)
  {
    if |fs| > 1 {
      hide Fitting;
      FittingTail(fs);
      AllReachedIff(fs[1..]);
    }
  }

  /** Nothing is lost, and everything is in order, exactly when the subframes fit. */
  lemma SplitIsCompleteIff(fs: seq<Subframe>, padLast: bool)
    requires forall f :: f in fs ==> IsSubframe(f)
    ensures ReadsInside(Build(fs, padLast))
    ensures Split(Build(fs, padLast)) == ConvertAll(fs) <==> Fitting(fs)
  {
    hide Build, Split, Reached, Fitting, ReadsInside;
    SplitUndoesBuild(fs, padLast);
    AllReachedIff(fs);
    assert fs[..|fs|] == fs;
  }

  /** A first subframe of padded size 28 loses the second. */
  lemma SmallFirstLosesSecond(da: seq<Octet>, sa: seq<Octet>, padLast: bool)
    requires |da| == 6 && |sa| == 6
    ensures var f := Subframe(da, sa, Zeros(14)); var fs := [f, f];
      && RoundUp(LENGTH_802_3 + |f.payload|) == 28 && ReadsInside(Build(fs, padLast))
      && Split(Build(fs, padLast)) == [Converted(f)] != ConvertAll(fs)
  {
    hide Build, Converted, Split, ReadsInside;
    var f := Subframe(da, sa, Zeros(14));
    var fs := [f, f];
    SplitUndoesBuild(fs, padLast);
    assert Reached(fs) == 1;
    assert fs[..1] == [f] && ConvertAll([f]) == [Converted(f)] + ConvertAll([]);
  }

  // ---------- Ethernet frames ----------

  /** The packet begins as the Ethernet frame of the subframe does. */
  predicate IsEthernet(f: Subframe, packet: seq<Octet>)
    requires IsSubframe(f)
  {
    f.da + f.sa + TypeField(f.payload) <= packet
  }

  /** The LLC/SNAP header comes off, or the payload happens to begin as the Ethernet frame would. */
  predicate LeavesEthernet(f: Subframe)
    requires IsSubframe(f)
  {
    RemovesLlc(f.payload) || IsEthernet(f, f.payload)
  }

  lemma ConvertedIsEthernetIff(f: Subframe)
    requires IsSubframe(f)
    ensures IsEthernet(f, Converted(f).packet) <==> LeavesEthernet(f)
  {
    hide RemovesLlc, TypeField;
  }

  lemma {:induction false} ConvertAllAt(fs: seq<Subframe>, i: nat)
    requires i < |fs| && forall f :: f in fs ==> IsSubframe(f)
    ensures ConvertAll(fs)[i] == Converted(fs[i])
  {
    hide Converted;
    if i > 0 { ConvertAllAt(fs[1..], i - 1); }
  }

  /** What is announced of an aggregate are Ethernet frames exactly when each subframe the loop
      reaches has an LLC/SNAP header to take off, or a payload that begins as its own frame. */
  lemma AnnouncedAreEthernetIff(fs: seq<Subframe>, padLast: bool)
    requires forall f :: f in fs ==> IsSubframe(f)
    ensures ReadsInside(Build(fs, padLast))
    ensures var ms := Split(Build(fs, padLast));
      && |ms| == Reached(fs)
      && ((forall i :: 0 <= i < |ms| ==> IsSubframe(fs[i]) && IsEthernet(fs[i], ms[i].packet)) <==>
          (forall i :: 0 <= i < Reached(fs) ==> IsSubframe(fs[i]) && LeavesEthernet(fs[i])))
  {
    hide Build, Split, ReadsInside, Converted, IsEthernet, LeavesEthernet, Reached, IsSubframe, ConvertAll;
    SplitUndoesBuild(fs, padLast);
    var n := Reached(fs);
    var ms := Split(Build(fs, padLast));
    forall i | 0 <= i < n
      ensures IsSubframe(fs[i]) && (IsEthernet(fs[i], ms[i].packet) <==> LeavesEthernet(fs[i]))
    {
      assert fs[i] in fs && fs[..n][i] == fs[i];
      ConvertAllAt(fs[..n], i);
      ConvertedIsEthernetIff(fs[i]);
    }
  }

  /** A payload of zeros from a station with an address other than zero is announced bare. */
  lemma BareIsNotEthernet(da: seq<Octet>, sa: seq<Octet>)
    requires |da| == 6 && |sa| == 6 && da != [0, 0, 0, 0, 0, 0]
    ensures var f := Subframe(da, sa, Zeros(46));
      IsSubframe(f) && Converted(f).packet == f.payload && !(da + sa <= Converted(f).packet)
  {
    var f := Subframe(da, sa, Zeros(46));
    assert f.payload[..6][0] == 0 && SNAP_802_1H[0] != 0 && SNAP_BRIDGE_TUNNEL[0] != 0;
    assert (da + sa)[..6] == da && f.payload[..6] == [0, 0, 0, 0, 0, 0];
    DiffersEarly(da + sa, f.payload, 6);
  }

  lemma DiffersEarly(s: seq<Octet>, t: seq<Octet>, n: nat)
    requires n <= |s| && n <= |t| && s[..n] != t[..n]
    ensures !(s <= t)
  {
  }

  // ---------- the loop over a buffer ----------

  /** NdisMoveMemory. */
  method Overwrite(data: array<Octet>, at: nat, bytes: seq<Octet>)
    requires at + |bytes| <= data.Length
    modifies data
    ensures forall k :: 0 <= k < data.Length ==> data[k] == if at <= k < at + |bytes| then bytes[k - at] else old(data[k])
  {
    for i := 0 to |bytes|
      invariant forall k :: 0 <= k < data.Length ==> data[k] == if at <= k < at + i then bytes[k - at] else old(data[k])
    {
      data[at + i] := bytes[i];
    }
  }

  /** A header put right before what starts at a place, and the given number of bytes cloned from
      the header on. */
  method Prepend(data: array<Octet>, at: nat, header: seq<Octet>, size: nat) returns (packet: seq<Octet>)
    requires |header| == LENGTH_802_3 <= at <= data.Length && at - LENGTH_802_3 + size <= data.Length
    modifies data
    ensures |packet| == size
    ensures forall k :: 0 <= k < size ==> packet[k] == if k < LENGTH_802_3 then header[k] else old(data[at - LENGTH_802_3 + k])
    ensures forall k :: at <= k < data.Length ==> data[k] == old(data[k])
  {
    Overwrite(data, at - LENGTH_802_3, header);
    packet := data[at - LENGTH_802_3..at - LENGTH_802_3 + size];
  }

  /** The comparisons of CONVERT_TO_802_3. */
  method Strips(data: array<Octet>, pos: nat, ghost s: seq<Octet>) returns (removed: bool)
    requires pos + |s| <= data.Length && s == data[pos..pos + |s|] && Takes(s) && ReadEnd(s) <= |s|
    ensures removed == FrontStrips(s)
  {
    hide Length, ReadEnd, Announced, FrontStrips, LengthField;
    AnnouncedIs(s);
    var at := pos + LENGTH_802_3;
    var six := data[at..at + 6];
    Inner(data, pos, s, 14, 20);
    removed := six == SNAP_BRIDGE_TUNNEL;
    if six == SNAP_802_1H {
      var proto := data[at + 6..at + 8];
      Inner(data, pos, s, 20, 22);
      removed := proto != IPX && proto != APPLE_TALK;
    }
  }

  /** CONVERT_TO_802_3 and the clone: the header is written in place before what is left of the
      payload; the size left is kept in 16 bits. */
  method Announce(data: array<Octet>, pos: nat, payloadSize: nat, ghost s: seq<Octet>) returns (m: Msdu)
    requires pos + |s| <= data.Length && s == data[pos..pos + |s|] && Takes(s) && ReadEnd(s) <= |s|
    requires payloadSize == Length(s)
    modifies data
    ensures m == Announced(s)
    ensures payloadSize >= LENGTH_802_1_H ==>
      forall k :: pos + LENGTH_802_3 + payloadSize <= k < data.Length ==> data[k] == old(data[k])
  {
    hide Length, ReadEnd, Announced, FrontStrips, LengthField;
    AnnouncedIs(s);
    var at := pos + LENGTH_802_3;
    var removed := Strips(data, pos, s);
    if removed {
      m := Exchanged(data, pos, payloadSize, s);
    } else {
      var typeField := LengthField(payloadSize);
      EapolIs(typeField);
      Inner(data, pos, s, 14, 14 + payloadSize);
      m := Msdu(data[at..at + payloadSize], typeField[0] == 0x88 && typeField[1] == 0x8e);
    }
  }

  /** The LLC/SNAP header taken off and the Ethernet header put in its place. */
  method Exchanged(data: array<Octet>, pos: nat, payloadSize: nat, ghost s: seq<Octet>) returns (m: Msdu)
    requires pos + |s| <= data.Length && s == data[pos..pos + |s|] && |s| >= 22 && payloadSize + 14 <= |s| && payloadSize <= 1518
    modifies data
    ensures m == Msdu((s[..12] + s[20..])[..payloadSize + 6], s[20..22] == EAPOL)
    ensures forall k :: pos + 22 <= k < data.Length ==> data[k] == old(data[k])
  {
    var at := pos + LENGTH_802_3;
    var header := data[pos..pos + 12] + data[at + 6..at + 8];
    Inner(data, pos, s, 0, 12);
    Inner(data, pos, s, 20, 22);
    var left := (payloadSize - LENGTH_802_1_H) % 0x1_0000;
    var size := (left + LENGTH_802_3) % 0x1_0000;
    assert size == payloadSize + 6;
    assert forall k :: 8 <= k < |s| ==> s[k] == data[at - 6 + (k - 8)];
    var packet := Prepend(data, at + LENGTH_802_1_H, header, size);
    ClonedIs(s, header, packet, size);
    m := Msdu(packet, header[12] == 0x88 && header[13] == 0x8e);
  }

  lemma Inner(data: array<Octet>, pos: nat, s: seq<Octet>, i: nat, j: nat)
    requires i <= j <= |s| && pos + |s| <= data.Length && s == data[pos..pos + |s|]
    ensures data[pos + i..pos + j] == s[i..j]
  {
    assert forall k :: i <= k < j ==> s[k] == data[pos + k];
  }

  /** What is announced, by the bytes the converter compares. */
  lemma AnnouncedIs(s: seq<Octet>)
    requires Takes(s) && ReadEnd(s) <= |s|
    ensures |s| >= 20 && (s[14..20] == SNAP_802_1H || s[14..20] == SNAP_BRIDGE_TUNNEL ==> |s| >= 22)
    ensures FrontStrips(s) <==> if s[14..20] == SNAP_802_1H then s[20..22] != IPX && s[20..22] != APPLE_TALK else s[14..20] == SNAP_BRIDGE_TUNNEL
    ensures FrontStrips(s) ==> Length(s) + 6 <= |s| - 8 && Announced(s) == Msdu((s[..12] + s[20..])[..Length(s) + 6], s[20..22] == EAPOL)
    ensures !FrontStrips(s) ==> Announced(s) == Msdu(s[14..14 + Length(s)], LengthField(Length(s)) == EAPOL)
  {
    hide Length;
    if |s| >= 22 { assert s[14..22][..6] == s[14..20] && s[14..22][6..8] == s[20..22]; }
  }

  lemma ClonedIs(s: seq<Octet>, header: seq<Octet>, packet: seq<Octet>, size: nat)
    requires |s| >= 22 && header == s[..12] + s[20..22] && |packet| == size && size + 8 <= |s|
    requires forall k :: 0 <= k < size ==> packet[k] == if k < LENGTH_802_3 then header[k] else s[8 + k]
    ensures packet == (s[..12] + s[20..])[..size]
    ensures s[20..22] == EAPOL <==> header[12] == 0x88 && header[13] == 0x8e
  {
    EapolIs(s[20..22]);
    assert header[12] == s[20..22][0] && header[13] == s[20..22][1];
  }

  lemma EapolIs(t: seq<Octet>)
    requires |t| == 2
    ensures t == EAPOL <==> t[0] == 0x88 && t[1] == 0x8e
  {
  }

  lemma TailIs(data: array<Octet>, pos: nat, s: seq<Octet>, z: nat)
    requires z <= |s| && pos + |s| <= data.Length
    requires forall k :: pos + z <= k < pos + |s| ==> data[k] == s[k - pos]
    ensures data[pos + z..pos + |s|] == s[z..]
  {
  }

  /** The front subframe announced, what the loop goes on with left as it was. */
  method TakeFront(data: array<Octet>, pos: nat, payloadSize: nat, ghost s: seq<Octet>) returns (m: Msdu)
    requires pos + |s| <= data.Length && s == data[pos..pos + |s|] && Takes(s) && ReadEnd(s) <= |s|
    requires payloadSize == Length(s)
    modifies data
    ensures m == Announced(s)
    ensures GoesOn(s) ==> data[pos + RoundUp(LENGTH_802_3 + payloadSize)..pos + |s|] == Rest(s)
  {
    hide Length, ReadEnd, Announced;
    assert forall k :: pos <= k < pos + |s| ==> data[k] == s[k - pos];
    m := Announce(data, pos, payloadSize, s);
    if GoesOn(s) {
      TailIs(data, pos, s, RoundUp(LENGTH_802_3 + payloadSize));
    }
  }

  /** deaggregate_AMSDU_announce: the loop ends, and announces what the value-level split does. */
  method Deaggregate(data: array<Octet>, dataSize0: nat) returns (announced: seq<Msdu>, nMSDU: nat)
    requires dataSize0 <= data.Length && ReadsInside(data[..dataSize0])
    modifies data
    ensures announced == Split(old(data[..dataSize0]))
    ensures nMSDU == |announced| + if StopsOnSize(old(data[..dataSize0])) then 1 else 0
  {
    hide Announced, ReadsInside, Split, Length, ReadEnd, Takes, GoesOn, Rest, RoundUp, StopsOnSize;
    var pos: nat, dataSize: nat := 0, dataSize0;
    announced, nMSDU := [], 0;
    ghost var all := data[..dataSize0];
    ghost var s := all;
    assert data[pos..pos + dataSize] == s;
    while dataSize > LENGTH_802_3
      invariant pos + dataSize <= dataSize0
      invariant s == data[pos..pos + dataSize] && ReadsInside(s)
      invariant announced + Split(s) == Split(all)
      invariant |announced| == nMSDU && (StopsOnSize(s) <==> StopsOnSize(all))
      decreases dataSize
    {
      nMSDU := nMSDU + 1;
      var high: nat, low: nat := data[pos + 12], data[pos + 13];
      var payloadSize := low + 256 * high;
      GuardsAre(s, payloadSize);
      var subFrameSize := payloadSize + LENGTH_802_3;
      if dataSize < subFrameSize || payloadSize > 1518 {
        SplitEnds(s);
        SizeStop(s);
        assert announced + [] == announced;
        return;
      }
      SplitFront(s);
      SizeStop(s);
      SizeStop([]);
      var m := TakeFront(data, pos, payloadSize, s);
      Regroup(announced, m, if GoesOn(s) then Split(Rest(s)) else []);
      announced := announced + [m];
      var z := RoundUp(subFrameSize);
      if z > 1528 || z < 32 {
        return;
      }
      if dataSize > z {
        s := Rest(s);
        pos, dataSize := pos + z, dataSize - z;
      } else {
        dataSize := 0;
        s := [];
        ShortTakesNot(s);
        SplitEnds(s);
      }
    }
    ShortTakesNot(s);
    SplitEnds(s);
    SizeStop(s);
    assert announced + [] == announced;
  }

  lemma Regroup(a: seq<Msdu>, m: Msdu, t: seq<Msdu>)
    ensures a + [m] + t == a + ([m] + t) && a + [m] + [] == a + [m]
  {
  }

  lemma GuardsAre(s: seq<Octet>, payloadSize: nat)
    requires |s| > LENGTH_802_3 && (var high: nat, low: nat := s[12], s[13]; payloadSize == low + 256 * high)
    ensures payloadSize == Length(s)
    ensures Takes(s) <==> |s| >= payloadSize + LENGTH_802_3 && payloadSize <= 1518
    ensures var z := RoundUp(payloadSize + LENGTH_802_3);
      Takes(s) ==> (GoesOn(s) <==> 32 <= z <= 1528 && |s| > z) && (GoesOn(s) ==> |Rest(s)| == |s| - z)
  {
  }

  lemma ShortTakesNot(s: seq<Octet>)
    requires |s| <= LENGTH_802_3
    ensures !Takes(s)
  {
  }

  lemma SplitEnds(s: seq<Octet>)
    requires !Takes(s)
    ensures ReadsInside(s) && Split(s) == []
  {
  }

  lemma SplitFront(s: seq<Octet>)
    requires ReadsInside(s) && Takes(s)
    ensures ReadEnd(s) <= |s|
    ensures if GoesOn(s) then ReadsInside(Rest(s)) && Split(s) == [Announced(s)] + Split(Rest(s)) else Split(s) == [Announced(s)]
  {
  }
}
