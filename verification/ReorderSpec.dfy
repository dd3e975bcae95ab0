/** The receive side of a Block Ack session as values: the 12-bit sequence arithmetic, the frames,
    and what every entry point of the reordering code does to one session, its pool and the
    stream of packets it hands on. */
module ReorderSpec {

  const MAXSEQ: nat := 0xFFF
  const SEQ_SPACE: nat := 0x1000
  const RESET_RCV_SEQ: nat := 0xFFFF
  const MAX_RX_PKT_LEN: nat := 1520

  /** A 12-bit sequence number. */
  type SeqNo = n: nat | n < 0x1000

  /** What a received packet carries into this code. The packet itself is an opaque identity. */
  datatype Frame = Frame(seqNo: SeqNo, packet: nat, amsdu: bool, opMode: nat)

  /** A received frame with the receive flags that decide its path. */
  datatype Rx = Rx(frame: Frame, eap: bool, dataSize: nat)

  /** How a packet leaves: announced from the reorder list, indicated directly on one of the three
      receive paths, or released without being handed up. */
  datatype Event =
    | Announced(frame: Frame)
    | Amsdu(frame: Frame)
    | Eapol(frame: Frame)
    | Legacy(frame: Frame)
    | Released(frame: Frame)

  /** One recipient session: last indicated sequence number (or RESET_RCV_SEQ), window size and
      the frames waiting in the reorder list, in list order. */
  datatype Session = Session(last: nat, win: nat, buf: seq<Frame>)

  /** What a step leaves behind: the session, the number of free blocks, the events in order. */
  datatype Result = Result(s: Session, free: nat, out: seq<Event>)

  /** The clock comparisons a step makes, as the environment answers them. */
  datatype Expiry = Expiry(long: bool, short: bool)

  // ---------- sequence arithmetic ----------

  /** Forward distance from a to b on the 12-bit circle. */
  function Dist(a: int, b: int): SeqNo {
    (b - a) % SEQ_SPACE
  }

  /** Bit 0x800 of a - b. */
  predicate SeqSmaller(a: int, b: int) {
    (a - b) % SEQ_SPACE >= 0x800
  }

  predicate SeqStepOne(a: int, b: int) {
    a == (b + 1) % SEQ_SPACE
  }

  // ---------- the reorder list ----------

  function Seqs(buf: seq<Frame>): (r: set<int>) {
    set f | f in buf :: f.seqNo as int
  }

  /** Number of leading frames that precede x. */
  function Position(buf: seq<Frame>, x: SeqNo): (p: nat)
    ensures p <= |buf|
    ensures forall i :: 0 <= i < p ==> SeqSmaller(buf[i].seqNo, x)
    ensures p < |buf| ==> !SeqSmaller(buf[p].seqNo, x)
  {
    if buf == [] || !SeqSmaller(buf[0].seqNo, x) then 0 else 1 + Position(buf[1..], x)
  }

  /** The scan met a frame with the same number. */
  predicate Duplicate(buf: seq<Frame>, x: SeqNo) {
    var p := Position(buf, x);
    p < |buf| && buf[p].seqNo == x
  }

  function Insert(buf: seq<Frame>, f: Frame): (r: seq<Frame>)
    ensures |r| == |buf| + if Duplicate(buf, f.seqNo) then 0 else 1
  {
    var p := Position(buf, f.seqNo);
    if Duplicate(buf, f.seqNo) then buf else buf[..p] + [f] + buf[p..]
  }

  /** Number of leading frames that follow start one by one. */
  function InOrder(buf: seq<Frame>, start: nat): (n: nat)
    ensures n <= |buf|
  {
    if buf == [] || !SeqStepOne(buf[0].seqNo, start) then 0 else 1 + InOrder(buf[1..], buf[0].seqNo)
  }

  /** Number of leading frames at or before x. */
  function UpTo(buf: seq<Frame>, x: SeqNo): (n: nat)
    ensures n <= |buf|
  {
    if buf == [] || !(buf[0].seqNo == x || SeqSmaller(buf[0].seqNo, x)) then 0 else 1 + UpTo(buf[1..], x)
  }

  function Announce(fs: seq<Frame>): (es: seq<Event>)
    ensures |es| == |fs|
    ensures forall i :: 0 <= i < |fs| ==> es[i] == Announced(fs[i])
  {
    seq(|fs|, i requires 0 <= i < |fs| => Announced(fs[i]))
  }

  function Discard(fs: seq<Frame>): (es: seq<Event>)
    ensures |es| == |fs|
    ensures forall i :: 0 <= i < |fs| ==> es[i] == Released(fs[i])
  {
    seq(|fs|, i requires 0 <= i < |fs| => Released(fs[i]))
  }

  /** INDICATE_LEGACY_OR_AMSDU: an aggregate is split whatever else it is. */
  function Indicate(rx: Rx): (e: Event)
    ensures e.frame == rx.frame && !e.Released? && !e.Announced?
    ensures (e.Amsdu? <==> rx.frame.amsdu) && (e.Legacy? <==> !rx.frame.amsdu && !rx.eap)
  {
    if rx.frame.amsdu then Amsdu(rx.frame)
    else if rx.eap then Eapol(rx.frame)
    else Legacy(rx.frame)
  }

  // ---------- steps ----------

  /** Everything waiting goes up and the session forgets its position. */
  function Refresh(s: Session, free: nat): (r: Result)
    ensures r.s.win == s.win
    ensures r.free + |r.s.buf| == free + |s.buf|
  {
    Result(s.(last := RESET_RCV_SEQ, buf := []), free + |s.buf|, Announce(s.buf))
  }

  /** Announce frames that directly follow start; start is where the session already stands. */
  function DrainFrom(s: Session, free: nat, start: nat): (r: Result)
    ensures r.s.win == s.win
    ensures r.free + |r.s.buf| == free + |s.buf|
  {
    var n := InOrder(s.buf, start);
    Result(Session(if n == 0 then s.last else s.buf[n - 1].seqNo, s.win, s.buf[n..]),
           free + n, Announce(s.buf[..n]))
  }

  /** Announce the frames at or before x. */
  function ReleaseUpTo(s: Session, free: nat, x: SeqNo): (r: Result)
    ensures r.s.win == s.win
    ensures r.free + |r.s.buf| == free + |s.buf|
  {
    var n := UpTo(s.buf, x);
    Result(s.(buf := s.buf[n..]), free + n, Announce(s.buf[..n]))
  }

  /** The timeout flush made on every arrival and by the periodic maintenance. */
  function Flush(s: Session, free: nat, e: Expiry): (r: Result)
    ensures r.s.win == s.win
    ensures r.free + |r.s.buf| == free + |s.buf|
  {
    if s.buf == [] then Result(s, free, [])
    else if e.long && |s.buf| > 1 then Refresh(s, free)
    else if e.short then
      var x := (s.last + 1) % SEQ_SPACE;
      var r1 := ReleaseUpTo(s, free, x);
      var r2 := DrainFrom(r1.s.(last := x), r1.free, x);
      Result(r2.s, r2.free, r1.out + r2.out)
    else Result(s, free, [])
  }

  /** Put a frame into the list, or, for lack of a block or for an EAP frame, push everything up
      to it and the frame itself to the upper layer. */
  function Enqueue(s: Session, free: nat, rx: Rx): (r: Result)
    ensures r.s.win == s.win
    ensures r.free + |r.s.buf| == free + |s.buf| - if rx.eap && free > 0 then 1 else 0
  {
    if free > 0 && !rx.eap then
      if Duplicate(s.buf, rx.frame.seqNo) then Result(s, free, [Released(rx.frame)])
      else Result(s.(buf := Insert(s.buf, rx.frame)), free - 1, [])
    else
      var r := ReleaseUpTo(s, if free > 0 then free - 1 else 0, rx.frame.seqNo);
      Result(r.s.(last := rx.frame.seqNo), r.free, r.out + [Indicate(rx)])
  }

  /** Where the window starts once it has been moved so that x is its last number. */
  function WinStart(x: SeqNo, win: nat): SeqNo {
    (x - win) % SEQ_SPACE
  }

  /** A frame beyond the window: give up what the moved window no longer covers, put the frame in,
      then announce what has become in order. */
  function Slide(s: Session, free: nat, rx: Rx): (r: Result)
    ensures r.s.win == s.win
    ensures r.free + |r.s.buf| + (if rx.eap && (free > 0 || UpTo(s.buf, WinStart(rx.frame.seqNo, s.win)) > 0) then 1 else 0) == free + |s.buf|
  {
    var w := WinStart(rx.frame.seqNo, s.win);
    var r1 := ReleaseUpTo(s, free, w);
    var r2 := Enqueue(r1.s.(last := w), r1.free, rx);
    var r3 := DrainFrom(r2.s, r2.free, r2.s.last);
    Result(r3.s, r3.free, r1.out + r2.out + r3.out)
  }

  /** Blocks lost to a data frame: one for an EAP frame from the reorder window or beyond it, as soon
      as a block is free when it is asked for; beyond the window, moving it may free the first. */
  function Lost(s: Session, free: nat, rx: Rx): nat {
    var x := rx.frame.seqNo;
    if rx.eap && s.last != RESET_RCV_SEQ && !SeqStepOne(x, s.last) && x != s.last && !SeqSmaller(x, s.last)
       && (free > 0 || (!SeqSmaller(x, (s.last + s.win + 1) % SEQ_SPACE) && UpTo(s.buf, WinStart(x, s.win)) > 0))
    then 1 else 0
  }

  /** A data frame meets the session, after the flush. */
  function Arrive(s: Session, free: nat, rx: Rx): (r: Result)
    ensures r.s.win == s.win
    ensures r.free + |r.s.buf| + Lost(s, free, rx) == free + |s.buf|
  {
    var x := rx.frame.seqNo;
    if s.last == RESET_RCV_SEQ then
      Result(s.(last := x), free, [Indicate(rx)])
    else if SeqStepOne(x, s.last) then
      var r := DrainFrom(s.(last := x), free, x);
      Result(r.s, r.free, [Indicate(rx)] + r.out)
    else if x == s.last || SeqSmaller(x, s.last) then
      Result(s, free, [Released(rx.frame)])
    else if SeqSmaller(x, (s.last + s.win + 1) % SEQ_SPACE) then
      Enqueue(s, free, rx)
    else
      Slide(s, free, rx)
  }

  /** A BlockAckReq with this starting sequence number. */
  function Bar(s: Session, free: nat, start: SeqNo): (r: Result)
    ensures r.s.win == s.win
    ensures r.free + |r.s.buf| == free + |s.buf|
  {
    if SeqSmaller(s.last, start) then
      var r := ReleaseUpTo(s, free, start);
      Result(r.s.(last := if start == 0 then MAXSEQ else start - 1), r.free, r.out)
    else Result(s, free, [])
  }

  /** The idle timer of an accepted session. */
  function Idle(s: Session, free: nat, expired: bool): (r: Result)
    ensures r.s.win == s.win
    ensures r.free + |r.s.buf| == free + |s.buf|
  {
    if expired then Refresh(s, free) else Result(s, free, [])
  }

  /** A session set up with a window, or closed with window 0: what still waits goes up first. */
  function Reopen(s: Session, free: nat, win: nat): (r: Result)
    ensures r.free + |r.s.buf| == free + |s.buf|
  {
    Result(Session(RESET_RCV_SEQ, win, []), free + |s.buf|, Announce(s.buf))
  }

  /** The driver is unloading: what waits is released. */
  function Unload(s: Session, free: nat): (r: Result)
    ensures r.free + |r.s.buf| == free + |s.buf|
  {
    Result(s.(buf := []), free + |s.buf|, Discard(s.buf))
  }

  /** Two steps one after the other. */
  function Then(r1: Result, r2: Result): Result {
    Result(r2.s, r2.free, r1.out + r2.out)
  }

  /** The frame is longer than a single one may be. */
  predicate TooBig(rx: Rx) {
    !rx.frame.amsdu && rx.dataSize > MAX_RX_PKT_LEN
  }

  /** What a data frame does to a live session: size check, flush, arrival. A block is lost exactly
      when the frame passes the size check and the flushed session loses one to it. */
  function IndicateAmpdu(s: Session, free: nat, rx: Rx, e: Expiry): (r: Result)
    ensures r.s.win == s.win
    ensures var f := Flush(s, free, e);
      r.free + |r.s.buf| + (if TooBig(rx) then 0 else Lost(f.s, f.free, rx)) == free + |s.buf|
  {
    if TooBig(rx) then Result(s, free, [Released(rx.frame)])
    else
      var r := Flush(s, free, e);
      Then(r, Arrive(r.s, r.free, rx))
  }

  /** The window granted to a peer that asks for bufSize: a byte, within our own limit, never 0. */
  function GrantedWindow(bufSize: nat, limit: nat): (w: nat)
    ensures 1 <= w <= 255
    ensures bufSize % 256 > 0 && limit % 256 > 0 ==> w <= bufSize % 256 && w <= limit % 256 && (w == bufSize % 256 || w == limit % 256)
    ensures bufSize % 256 == 0 || limit % 256 == 0 ==> w == 64
  {
    var w := if bufSize % 256 < limit % 256 then bufSize % 256 else limit % 256;
    if w == 0 then 64 else w
  }

  /** Sequence numbers stay 12 bits wide (or RESET) and the window a byte. */
  predicate WellFormed(s: Session) {
    (s.last == RESET_RCV_SEQ || s.last <= MAXSEQ) && s.win <= 255
  }
}
