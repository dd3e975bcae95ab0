/** The headers of a subframe byte by byte, and what becomes of each kind of payload. */
module AmsduHeaders {

  import opened Amsdu

  /** Two bytes, high byte first, both ways. */
  lemma LengthIsHighByteFirst(high: Octet, low: Octet, s: seq<Octet>)
    requires |s| >= 14 && s[12] == high && s[13] == low
    ensures LengthField(256 * high + low) == [high, low] && Length(s) == 256 * high + low
  {
  }

  /** The payload behind an LLC/SNAP header of that organisation code and type. */
  function Snap(code: Octet, kind: seq<Octet>, body: seq<Octet>): seq<Octet> {
    [0xAA, 0xAA, 0x03, 0x00, 0x00, code] + kind + body
  }

  lemma SnapParts(code: Octet, kind: seq<Octet>, body: seq<Octet>)
    requires |kind| == 2
    ensures var p := Snap(code, kind, body);
      |p| == 8 + |body| && p[..6] == [0xAA, 0xAA, 0x03, 0x00, 0x00, code] && p[6..8] == kind && p[8..] == body
  {
  }

  /** RFC 1042: such a payload becomes an Ethernet frame of its type, unless the type is that of IPX or AppleTalk. */
  lemma Rfc1042BecomesEthernet(da: seq<Octet>, sa: seq<Octet>, kind: seq<Octet>, body: seq<Octet>)
    requires |da| == |sa| == 6 && |kind| == 2 && 8 + |body| < 0x1_0000
    ensures var f := Subframe(da, sa, Snap(0x00, kind, body));
      && IsSubframe(f)
      && Converted(f) == if kind == [0x81, 0x37] || kind == [0x80, 0xF3] then Msdu(f.payload, |f.payload| == 0x888E)
                         else Msdu(da + sa + kind + body, kind == [0x88, 0x8E])
  {
    hide Snap;
    SnapParts(0x00, kind, body);
    LengthSaysEapol(8 + |body|);
  }

  /** The bridge tunnel of IEEE 802.1H becomes an Ethernet frame whatever its type. */
  lemma BridgeTunnelBecomesEthernet(da: seq<Octet>, sa: seq<Octet>, kind: seq<Octet>, body: seq<Octet>)
    requires |da| == |sa| == 6 && |kind| == 2 && 8 + |body| < 0x1_0000
    ensures var f := Subframe(da, sa, Snap(0xF8, kind, body));
      IsSubframe(f) && Converted(f) == Msdu(da + sa + kind + body, kind == [0x88, 0x8E])
  {
    hide Snap;
    SnapParts(0xF8, kind, body);
  }

  /** A length is taken for the type of EAPOL when it is that number. */
  lemma LengthSaysEapol(n: nat)
    requires n < 0x1_0000
    ensures LengthField(n) == EAPOL <==> n == 0x888E
  {
  }

  /** Every other payload is announced as it is. */
  lemma OthersStayBare(f: Subframe)
    requires IsSubframe(f)
    requires f.payload[..6] != [0xAA, 0xAA, 0x03, 0x00, 0x00, 0x00] && f.payload[..6] != [0xAA, 0xAA, 0x03, 0x00, 0x00, 0xF8]
    ensures Converted(f) == Msdu(f.payload, |f.payload| == 0x888E)
  {
    LengthSaysEapol(|f.payload|);
  }
}
