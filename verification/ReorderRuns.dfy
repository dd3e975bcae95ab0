/** What a session keeps over whole runs: the window invariant, the delivery order across any number
    of wraps, and the packets themselves. */
module ReorderRuns {
  import opened ReorderSpec
  import opened ReorderWide

  // ---------- one step of a live session ----------

  /** Frames read as numbers at or after u. */
  ghost function Numbers(u: int, fs: seq<Frame>): (ns: seq<int>)
    ensures |ns| == |fs|
    ensures forall i :: 0 <= i < |fs| ==> u <= ns[i] < u + SEQ_SPACE && ns[i] % SEQ_SPACE == fs[i].seqNo
  {
    seq(|fs|, i requires 0 <= i < |fs| => u + Dist(u, fs[i].seqNo))
  }

  /** The session seen from position u. */
  ghost function View(s: Session, u: int): Wide {
    Wide(u, s.win, Numbers(u, s.buf), [])
  }

  /** What holds of every session in use: without a position nothing waits; with one, what waits
      is strictly ascending in serial order, at distances 2 to the window size. */
  ghost predicate Live(s: Session) {
    && 1 <= s.win <= 255
    && if s.last == RESET_RCV_SEQ then s.buf == []
       else
         && s.last <= MAXSEQ
         && (forall i :: 0 <= i < |s.buf| ==> 2 <= Dist(s.last, s.buf[i].seqNo) <= s.win)
         && (forall i, j :: 0 <= i < j < |s.buf| ==> SeqSmaller(s.buf[i].seqNo, s.buf[j].seqNo))
  }

  lemma LiveIsTight(s: Session, u: int)
    requires s.last == u % SEQ_SPACE
    ensures Live(s) <==> WTight(View(s, u))
    ensures Shows(s, [], View(s, u))
  {
    var ns := Numbers(u, s.buf);
    forall i | 0 <= i < |ns| ensures ns[i] == u + Dist(s.last, s.buf[i].seqNo) && ns[i] % SEQ_SPACE == s.buf[i].seqNo {
      DistAt(s.last, u, s.buf[i].seqNo);
    }
    if Live(s) || WTight(View(s, u)) {
      forall i, j | 0 <= i < j < |ns| ensures SeqSmaller(s.buf[i].seqNo, s.buf[j].seqNo) <==> ns[i] < ns[j] {
        SmallerIsLess(ns[i], ns[j]);
      }
    }
  }

  lemma DistAt(last: int, u: int, x: SeqNo)
    requires last == u % SEQ_SPACE
    ensures Dist(u, x) == Dist(last, x) && (u + Dist(u, x)) % SEQ_SPACE == x
  {
  }

  lemma DistBack(u: int, n: int)
    requires u <= n < u + SEQ_SPACE
    ensures u + Dist(u, n % SEQ_SPACE) == n
  {
  }

  /** Numbers that a frame list carries and that start at u are the ones read off it. */
  lemma NumbersAreUnique(u: int, fs: seq<Frame>, ns: seq<int>)
    requires Carries(fs, ns) && Between(ns, u, u + 4095)
    ensures Numbers(u, fs) == ns
  {
    forall i | 0 <= i < |ns| ensures Numbers(u, fs)[i] == ns[i] {
      DistBack(u, ns[i]);
    }
  }

  datatype Step =
    | Timeout(e: Expiry)
    | Data(rx: Rx)
    | BlockAckReq(start: SeqNo)
    | IdleTimer(expired: bool)

  function Do(s: Session, free: nat, step: Step): (r: Result) {
    match step
    case Timeout(e) => Flush(s, free, e)
    case Data(rx) => Arrive(s, free, rx)
    case BlockAckReq(start) => Bar(s, free, start)
    case IdleTimer(expired) => Idle(s, free, expired)
  }

  /** Checkable before the step: not a frame that must pass the list for lack of a block (or for
      being EAP) while it or its successor waits there, and not a BlockAckReq for a waiting frame. */
  predicate Clean(s: Session, free: nat, step: Step) {
    s.last != RESET_RCV_SEQ ==>
      match step
      case Data(rx) =>
        2 <= Dist(s.last, rx.frame.seqNo) <= s.win && (free == 0 || rx.eap) ==>
          rx.frame.seqNo !in Seqs(s.buf) && (rx.frame.seqNo + 1) % SEQ_SPACE !in Seqs(s.buf)
      case BlockAckReq(start) =>
        SeqSmaller(s.last, start) ==> start !in Seqs(s.buf)
      case _ => true
  }

  /** Seen from position u, the step delivered in strictly increasing order, nothing at or before
      u and nothing beyond the position it left, and the session is still live. */
  ghost predicate Orderly(s: Session, u: int, r: Result) {
    var up := Numbers(u, Up(r.out));
    && Live(r.s)
    && Ascending(up)
    && Between(up, u + 1, if r.s.last == RESET_RCV_SEQ then u + s.win else u + Dist(u, r.s.last))
  }

  /** The verdict on the wide step is the verdict on the 12-bit step. */
  lemma VerdictCarries(s: Session, u: int, r: Result, w: Wide)
    requires Shows(r.s, r.out, w) && w.win == s.win && u <= w.u
    requires WWithin(w, u + 1, u + 2048) && Between(w.ns, w.u, u + 2048)
    ensures Orderly(s, u, r) <==> WFine(View(s, u), w)
    ensures Between(Numbers(u, Up(r.out)), u + 1, u + 2048)
    ensures u + Dist(u, r.s.last) == w.u && r.s.last == w.u % SEQ_SPACE
    ensures Numbers(u, Up(r.out)) == w.up && Numbers(w.u, r.s.buf) == w.ns
  {
    NumbersAreUnique(u, Up(r.out), w.up);
    NumbersAreUnique(w.u, r.s.buf, w.ns);
    LiveIsTight(r.s, w.u);
    DistIsDifference(u, w.u);
    DistAt(u % SEQ_SPACE, u, r.s.last);
    assert u + Dist(u, r.s.last) == w.u;
  }

  lemma RefreshIsOrderly(s: Session, u: int, free: nat)
    requires Live(s) && s.last == u % SEQ_SPACE
    ensures Orderly(s, u, Refresh(s, free))
  {
    LiveIsTight(s, u);
    UpAnnounce(s.buf);
  }

  lemma StandingStillIsOrderly(s: Session, u: int, free: nat)
    requires Live(s) && s.last == u % SEQ_SPACE
    ensures Orderly(s, u, Result(s, free, []))
  {
  }

  /** One step of a live session keeps it live and delivers in order exactly when it is clean. */
  lemma StepIsOrderlyIffClean(s: Session, u: int, free: nat, step: Step)
    requires Live(s) && s.last == u % SEQ_SPACE
    ensures Orderly(s, u, Do(s, free, step)) <==> Clean(s, free, step)
  {
    match step
    case Timeout(e) =>
      TimeoutIsOrderly(s, u, free, e);
    case Data(rx) =>
      DataIsOrderlyIffClean(s, u, free, rx);
    case BlockAckReq(start) =>
      BarIsOrderlyIffClean(s, u, free, start);
    case IdleTimer(expired) =>
      if expired { RefreshIsOrderly(s, u, free); } else { StandingStillIsOrderly(s, u, free); }
  }

  lemma TimeoutIsOrderly(s: Session, u: int, free: nat, e: Expiry)
    requires Live(s) && s.last == u % SEQ_SPACE
    ensures Orderly(s, u, Flush(s, free, e))
  {
    hide Orderly, Live, ReleaseUpTo, DrainFrom, Refresh, WNudge, WTight;
    if s.buf != [] && e.long && |s.buf| > 1 {
      RefreshIsOrderly(s, u, free);
    } else if s.buf != [] && e.short {
      LiveIsTight(s, u);
      var w := View(s, u);
      NudgeRefines(s, w, free, e);
      NudgeIsFine(w);
      NudgeWithin(w);
      FineIsAhead(w, WNudge(w));
      VerdictCarries(s, u, Flush(s, free, e), WNudge(w));
    } else {
      StandingStillIsOrderly(s, u, free);
    }
  }

  lemma FineIsAhead(w: Wide, r: Wide)
    requires WFine(w, r) && WWithin(r, w.u + 1, w.u + 2048)
    ensures Between(r.ns, r.u, w.u + 2048)
  {
  }

  lemma DataIsOrderlyIffClean(s: Session, u: int, free: nat, rx: Rx)
    requires Live(s) && s.last == u % SEQ_SPACE
    ensures Orderly(s, u, Arrive(s, free, rx)) <==> Clean(s, free, Data(rx))
    ensures Between(Numbers(u, Up(Arrive(s, free, rx).out)), u + 1, u + 2048)
  {
    hide Orderly, Live, Arrive, WArrive, WTight, Shows, WCleanData, Clean;
    LiveIsTight(s, u);
    var w := View(s, u);
    var n := Nearest(u, rx.frame.seqNo);
    var stored := ArriveRefines(s, w, free, rx);
    ArriveIsFine(w, n, stored);
    ArriveWithin(w, n, stored);
    ArriveAhead(w, n, stored);
    ArriveForward(w, n, stored);
    VerdictCarries(s, u, Arrive(s, free, rx), WArrive(w, n, stored));
    CleanDataCarries(s, u, free, rx, stored);
  }

  lemma ArriveForward(w: Wide, n: int, stored: bool)
    requires WTight(w) && w.up == [] && n < w.u + 2048
    ensures var r := WArrive(w, n, stored); r.win == w.win && r.u >= w.u
  {
    hide WTight, Put;
    ArriveWithin(w, n, stored);
  }

  /** The clean condition says the same on 12 bits as on the wide numbers. */
  lemma CleanDataCarries(s: Session, u: int, free: nat, rx: Rx, stored: bool)
    requires Live(s) && s.last == u % SEQ_SPACE
    requires Nearest(u, rx.frame.seqNo) <= u + s.win ==> stored == (free > 0 && !rx.eap)
    ensures Clean(s, free, Data(rx)) <==> WCleanData(View(s, u), Nearest(u, rx.frame.seqNo), stored)
  {
    var x := rx.frame.seqNo;
    var n := Nearest(u, x);
    DistAt(s.last, u, x);
    assert 2 <= Dist(s.last, x) <= s.win <==> u + 2 <= n <= u + s.win;
    if 2 <= Dist(s.last, x) <= s.win {
      WaitingCarries(s, u, n);
      WaitingCarries(s, u, n + 1);
      ModAdd(n, 1);
    }
  }

  lemma WaitingCarries(s: Session, u: int, n: int)
    requires Live(s) && s.last == u % SEQ_SPACE && u <= n <= u + 2048
    ensures n % SEQ_SPACE in Seqs(s.buf) <==> n in View(s, u).ns
  {
    LiveIsTight(s, u);
    var ns := View(s, u).ns;
    forall i | 0 <= i < |ns| ensures ns[i] == n <==> s.buf[i].seqNo == n % SEQ_SPACE {
      SameIsEqual(ns[i], n);
    }
    if n % SEQ_SPACE in Seqs(s.buf) {
      var f :| f in s.buf && f.seqNo == n % SEQ_SPACE;
      var i :| 0 <= i < |s.buf| && s.buf[i] == f;
      assert ns[i] == n;
    }
    if n in ns {
      var i :| 0 <= i < |ns| && ns[i] == n;
      assert s.buf[i] in s.buf;
    }
  }

  lemma BarIsOrderlyIffClean(s: Session, u: int, free: nat, start: SeqNo)
    requires Live(s) && s.last == u % SEQ_SPACE
    ensures Orderly(s, u, Bar(s, free, start)) <==> Clean(s, free, BlockAckReq(start))
    ensures Between(Numbers(u, Up(Bar(s, free, start).out)), u + 1, u + 2048)
  {
    hide Orderly, Live, Bar, WTight, Shows, WRelease;
    LiveIsTight(s, u);
    var w := View(s, u);
    var n := NearestUp(u, start);
    BarRefines(s, w, free, start);
    BarIsFine(w, n);
    BarWithin(w, n);
    VerdictCarries(s, u, Bar(s, free, start), WBar(w, n));
    SmallerIsLess(u, n);
    if n > u {
      WaitingCarries(s, u, n);
    }
  }

  // ---------- runs ----------

  /** A session observed over a run: its position as an unbounded number, the numbers handed up
      since it last got a position, and those of the earlier epochs between two resets. */
  datatype Epochs = Epochs(s: Session, u: int, current: seq<int>, past: seq<seq<int>>)

  ghost function Observe(t: Epochs, free: nat, step: Step): Epochs {
    var r := Do(t.s, free, step);
    if t.s.last == RESET_RCV_SEQ then
      if r.s.last == RESET_RCV_SEQ then t.(s := r.s)
      else Epochs(r.s, r.s.last, Numbers(r.s.last, Up(r.out)), t.past)
    else
      var up := t.current + Numbers(t.u, Up(r.out));
      if r.s.last == RESET_RCV_SEQ then Epochs(r.s, t.u, [], t.past + [up])
      else Epochs(r.s, t.u + Dist(t.u, r.s.last), up, t.past)
  }

  /** A step together with the number of blocks it finds free in the shared pool. */
  datatype Turn = Turn(free: nat, step: Step)

  ghost function ObserveAll(t: Epochs, run: seq<Turn>): Epochs
    decreases |run|
  {
    if run == [] then t else ObserveAll(Observe(t, run[0].free, run[0].step), run[1..])
  }

  ghost predicate CleanRun(s: Session, run: seq<Turn>)
    decreases |run|
  {
    run != [] ==>
      && Clean(s, run[0].free, run[0].step)
      && CleanRun(Do(s, run[0].free, run[0].step).s, run[1..])
  }

  /** Within every epoch the numbers handed up strictly increase. */
  ghost predicate InOrderSoFar(t: Epochs) {
    && Live(t.s)
    && (t.s.last == RESET_RCV_SEQ ==> t.current == [])
    && (t.s.last != RESET_RCV_SEQ ==> t.s.last == t.u % SEQ_SPACE)
    && Ascending(t.current)
    && (forall i :: 0 <= i < |t.current| ==> t.current[i] <= t.u)
    && (forall e :: e in t.past ==> Ascending(e))
  }

  lemma AscendingConcat(a: seq<int>, b: seq<int>, m: int, hi: int)
    requires Ascending(a) && Ascending(b) && (forall i :: 0 <= i < |a| ==> a[i] <= m) && Between(b, m + 1, hi)
    ensures Ascending(a + b)
    ensures m <= hi ==> forall i :: 0 <= i < |a + b| ==> (a + b)[i] <= hi
  {
  }

  /** The first step that gives a position. */
  lemma FirstStep(s: Session, free: nat, step: Step)
    requires Live(s) && s.last == RESET_RCV_SEQ
    ensures var r := Do(s, free, step);
      && Live(r.s)
      && (r.s.last == RESET_RCV_SEQ ==> Up(r.out) == [])
      && (r.s.last != RESET_RCV_SEQ ==> Numbers(r.s.last, Up(r.out)) == (if step.Data? then [r.s.last] else []))
  {
    var r := Do(s, free, step);
    assert Announce([]) == [];
    if step.Data? {
      assert Up(r.out) == [step.rx.frame] by { assert r.out[1..] == []; }
    }
  }

  lemma ObserveKeepsOrder(t: Epochs, free: nat, step: Step)
    requires InOrderSoFar(t) && Clean(t.s, free, step)
    ensures InOrderSoFar(Observe(t, free, step))
  {
    hide Live, Do, Clean, Up, Numbers;
    var r := Do(t.s, free, step);
    if t.s.last == RESET_RCV_SEQ {
      FirstStep(t.s, free, step);
      LiveShape(r.s);
    } else {
      StepIsOrderlyIffClean(t.s, t.u, free, step);
      LiveShape(r.s);
      var up := Numbers(t.u, Up(r.out));
      if r.s.last == RESET_RCV_SEQ {
        AscendingConcat(t.current, up, t.u, t.u + t.s.win);
      } else {
        AscendingConcat(t.current, up, t.u, t.u + Dist(t.u, r.s.last));
        DistAt(t.u % SEQ_SPACE, t.u, r.s.last);
      }
    }
  }

  lemma LiveShape(s: Session)
    requires Live(s)
    ensures s.last == RESET_RCV_SEQ || s.last <= MAXSEQ
  {
  }

  /** Over every clean run of any length, from any live session: the window invariant holds at the
      end, and in every epoch no number is handed up twice or out of order, however often the
      12-bit numbers wrap. */
  lemma {:induction false} RunKeepsOrder(t: Epochs, run: seq<Turn>)
    requires InOrderSoFar(t) && CleanRun(t.s, run)
    ensures InOrderSoFar(ObserveAll(t, run))
    decreases |run|
  {
    if run != [] {
      ObserveKeepsOrder(t, run[0].free, run[0].step);
      RunKeepsOrder(Observe(t, run[0].free, run[0].step), run[1..]);
    }
  }

  /** A step that is not clean shows in what is observed after it. */
  lemma ObserveShowsUnclean(t: Epochs, free: nat, step: Step)
    requires InOrderSoFar(t) && InOrderSoFar(Observe(t, free, step))
    ensures Clean(t.s, free, step)
  {
    hide Live, Do, Up, Numbers, Seqs, SeqSmaller;
    if t.s.last != RESET_RCV_SEQ && (step.Data? || step.BlockAckReq?) {
      var r := Do(t.s, free, step);
      LiveShape(t.s);
      KeepsPosition(t.s, free, step);
      StepIsAhead(t.s, t.u, free, step);
      StepIsOrderlyIffClean(t.s, t.u, free, step);
      EndOfConcat(t.current, Numbers(t.u, Up(r.out)), t.u + Dist(t.u, r.s.last));
    }
  }

  lemma EndOfConcat(a: seq<int>, b: seq<int>, hi: int)
    requires Ascending(a + b) && forall i :: 0 <= i < |a + b| ==> (a + b)[i] <= hi
    ensures Ascending(b) && forall i :: 0 <= i < |b| ==> b[i] <= hi
  {
    assert forall i :: 0 <= i < |b| ==> b[i] == (a + b)[|a| + i];
  }

  /** A data frame or a BlockAckReq never takes the position away. */
  lemma KeepsPosition(s: Session, free: nat, step: Step)
    requires s.last <= MAXSEQ && (step.Data? || step.BlockAckReq?)
    ensures Do(s, free, step).s.last <= MAXSEQ
  {
  }

  /** Nor does it hand up anything at or before the position. */
  lemma StepIsAhead(s: Session, u: int, free: nat, step: Step)
    requires Live(s) && s.last == u % SEQ_SPACE && (step.Data? || step.BlockAckReq?)
    ensures Between(Numbers(u, Up(Do(s, free, step).out)), u + 1, u + 2048)
  {
    hide Live, Numbers, Up;
    if step.Data? { DataIsOrderlyIffClean(s, u, free, step.rx); } else { BarIsOrderlyIffClean(s, u, free, step.start); }
  }

  /** After every prefix of the run the session is live and each epoch in order. */
  ghost predicate InOrderThroughout(t: Epochs, run: seq<Turn>)
    decreases |run|
  {
    InOrderSoFar(t) && (run != [] ==> InOrderThroughout(Observe(t, run[0].free, run[0].step), run[1..]))
  }

  /** Over every run of any length, from any live session: the session stays live, and in every epoch
      no number is handed up twice or out of order, after every prefix, exactly when each step is
      clean in the session it meets. */
  lemma {:induction false} RunIsInOrderIffClean(t: Epochs, run: seq<Turn>)
    requires InOrderSoFar(t)
    ensures InOrderThroughout(t, run) <==> CleanRun(t.s, run)
    decreases |run|
  {
    hide InOrderSoFar, Clean, Do;
    if run != [] {
      var o := Observe(t, run[0].free, run[0].step);
      assert o.s == Do(t.s, run[0].free, run[0].step).s;
      if Clean(t.s, run[0].free, run[0].step) {
        ObserveKeepsOrder(t, run[0].free, run[0].step);
        RunIsInOrderIffClean(o, run[1..]);
      } else if InOrderSoFar(o) {
        ObserveShowsUnclean(t, run[0].free, run[0].step);
        assert false;
      } else {
        NotThroughout(o, run[1..]);
      }
    }
  }

  lemma NotThroughout(t: Epochs, run: seq<Turn>)
    requires !InOrderSoFar(t)
    ensures !InOrderThroughout(t, run)
  {
  }

  /** A freshly set-up session starts such a run. */
  lemma FreshSessionIsInOrder(win: nat)
    requires 1 <= win <= 255
    ensures InOrderSoFar(Epochs(Session(RESET_RCV_SEQ, win, []), 0, [], []))
  {
  }

  // ---------- the two ways out ----------

  /** A BlockAckReq for a waiting frame hands it up and then expects it again: a retransmission
      is handed up a second time. */
  lemma BarForWaitingFrameRepeatsIt(f: Frame, g: Frame, free: nat)
    requires f.seqNo == 3 && g.seqNo == 3
    ensures var s := Session(0, 8, [f]);
      && Live(s)
      && !Clean(s, free, BlockAckReq(3))
      && var r1 := Bar(s, free, 3);
      && var r2 := Arrive(r1.s, r1.free, Rx(g, false, 0));
      && Up(r1.out) == [f] && Up(r2.out) == [g]
  {
    var s := Session(0, 8, [f]);
    var r1 := Bar(s, free, 3);
    assert UpTo([f][1..], 3) == 0;
    assert UpTo([f], 3) == 1;
    assert r1.out == [Announced(f)];
    assert Up(r1.out) == [f] by { assert r1.out[1..] == []; }
    assert r1.s == Session(2, 8, []);
    var r2 := Arrive(r1.s, r1.free, Rx(g, false, 0));
    assert InOrder([], 3) == 0;
    assert Up(r2.out) == [g] by { assert r2.out == [Indicate(Rx(g, false, 0))]; assert r2.out[1..] == []; }
  }

  /** A frame that finds no block while its successor waits leaves the successor next in turn but
      not drained: its retransmission is handed up, and the buffered copy again at the timeout. */
  lemma NoBlockStrandsSuccessor(f: Frame, g: Frame, h: Frame)
    requires f.seqNo == 3 && g.seqNo == 2 && h.seqNo == 3
    ensures var s := Session(0, 8, [f]);
      && Live(s)
      && !Clean(s, 0, Data(Rx(g, false, 0)))
      && var r1 := Arrive(s, 0, Rx(g, false, 0));
      && var r2 := Arrive(r1.s, r1.free, Rx(h, false, 0));
      && var r3 := Flush(r2.s, r2.free, Expiry(false, true));
      && !Live(r1.s)
      && Up(r1.out) == [g] && Up(r2.out) == [h] && Up(r3.out) == [f]
  {
    OneUp(Indicate(Rx(g, false, 0)));
    OneUp(Indicate(Rx(h, false, 0)));
    OneUp(Announced(f));
    PassesBy(f, g);
    RunsPast(f, h);
    ComesLate(f);
    assert Dist(2, 3) == 1;
    assert f in Session(0, 8, [f]).buf;
  }

  lemma OneUp(e: Event)
    requires !e.Released?
    ensures Up([e]) == [e.frame]
  {
    assert [e][1..] == [];
  }

  lemma PassesBy(f: Frame, g: Frame)
    requires f.seqNo == 3 && g.seqNo == 2
    ensures Arrive(Session(0, 8, [f]), 0, Rx(g, false, 0)) == Result(Session(2, 8, [f]), 0, [Indicate(Rx(g, false, 0))])
  {
    assert UpTo([f], 2) == 0;
    assert Announce([]) + [Indicate(Rx(g, false, 0))] == [Indicate(Rx(g, false, 0))];
  }

  lemma RunsPast(f: Frame, h: Frame)
    requires f.seqNo == 3 && h.seqNo == 3
    ensures Arrive(Session(2, 8, [f]), 0, Rx(h, false, 0)) == Result(Session(3, 8, [f]), 0, [Indicate(Rx(h, false, 0))])
  {
    assert InOrder([f], 3) == 0;
    assert [Indicate(Rx(h, false, 0))] + Announce([]) == [Indicate(Rx(h, false, 0))];
  }

  lemma ComesLate(f: Frame)
    requires f.seqNo == 3
    ensures Flush(Session(3, 8, [f]), 0, Expiry(false, true)).out == [Announced(f)]
  {
    assert [f][1..] == [];
    assert UpTo([f], 4) == 1;
    assert InOrder([], 4) == 0;
    assert [Announced(f)] + Announce([]) == [Announced(f)];
  }

  // ---------- the list fits the window ----------

  lemma {:induction false} AscendingFits(ns: seq<int>, lo: int, hi: int)
    requires Ascending(ns) && Between(ns, lo, hi) && lo <= hi + 1
    ensures |ns| <= hi - lo + 1
  {
    if ns != [] {
      var k := |ns| - 1;
      assert forall i :: 0 <= i < k ==> ns[i] < ns[k];
      AscendingFits(ns[..k], lo, ns[k] - 1);
    }
  }

  /** The length bound the code asserts right after queueing a frame, on both paths to it. */
  lemma QueueFitsWindow(s: Session, free: nat, rx: Rx)
    requires Live(s) && s.last != RESET_RCV_SEQ && 2 <= Dist(s.last, rx.frame.seqNo) < 0x800
    ensures Dist(s.last, rx.frame.seqNo) <= s.win ==> |Enqueue(s, free, rx).s.buf| <= s.win
    ensures Dist(s.last, rx.frame.seqNo) > s.win ==>
      var w := WinStart(rx.frame.seqNo, s.win);
      var r := ReleaseUpTo(s, free, w);
      |Enqueue(r.s.(last := w), r.free, rx).s.buf| <= s.win
  {
    hide Live, Enqueue, ReleaseUpTo, WRelease, WEnqueue, Put, WinStart, Ascending;
    LiveShape(s);
    var u := s.last as int;
    LiveIsTight(s, u);
    var w := View(s, u);
    var n := u + Dist(s.last, rx.frame.seqNo);
    DistAt(s.last, u, rx.frame.seqNo);
    var stored := free > 0 && !rx.eap;
    if n <= u + s.win {
      NearWindow(w, n);
      EnqueueRefines(s, [], w, free, rx, n);
      WindowFits(w, n, stored);
    } else {
      UncoverRefines(s, w, free, n);
      ReleaseOrders(w, n - w.win);
      var r := ReleaseUpTo(s, free, WinStart(n % SEQ_SPACE, s.win));
      var w1 := WRelease(w, n - w.win).(u := n - w.win);
      NearBelow(w1.ns, u, n);
      EnqueueRefines(r.s.(last := WinStart(n % SEQ_SPACE, s.win)), r.out, w1, r.free, rx, n);
      WindowFits(w1, n, r.free > 0 && !rx.eap);
    }
  }

  lemma WindowFits(w: Wide, n: int, stored: bool)
    requires Ascending(w.ns) && Between(w.ns, w.u + 1, w.u + w.win) && w.u + 1 <= n <= w.u + w.win
    ensures |WEnqueue(w, n, stored).ns| <= w.win
  {
    AscendingFits(w.ns, w.u + 1, w.u + w.win);
    if stored && n !in w.ns {
      PutKeepsOrder(w.ns, n);
      forall i | 0 <= i < |Put(w.ns, n)| ensures w.u + 1 <= Put(w.ns, n)[i] <= w.u + w.win {
        assert Put(w.ns, n)[i] in Put(w.ns, n);
      }
      AscendingFits(Put(w.ns, n), w.u + 1, w.u + w.win);
    }
  }

  // ---------- packets are conserved ----------

  /** The frame of every event, handed up or released. */
  function Frames(es: seq<Event>): (fs: seq<Frame>)
    ensures |fs| == |es|
  {
    seq(|es|, i requires 0 <= i < |es| => es[i].frame)
  }

  function Incoming(step: Step): seq<Frame> {
    if step.Data? then [step.rx.frame] else []
  }

  /** What comes in and what waited is what goes out and what waits, nothing twice. */
  ghost predicate Conserves(s: Session, incoming: seq<Frame>, r: Result) {
    multiset(r.s.buf) + multiset(Frames(r.out)) == multiset(s.buf) + multiset(incoming)
  }

  lemma FramesConcat(a: seq<Event>, b: seq<Event>)
    ensures Frames(a + b) == Frames(a) + Frames(b)
  {
  }

  lemma SplitConserves(s: Session, n: nat, r: Result)
    requires n <= |s.buf| && r.s.buf == s.buf[n..] && r.out == Announce(s.buf[..n])
    ensures Conserves(s, [], r)
  {
    assert Frames(r.out) == s.buf[..n];
    assert s.buf == s.buf[..n] + s.buf[n..];
  }

  lemma Bag<T>(a: seq<T>, b: seq<T>)
    ensures multiset(a + b) == multiset(a) + multiset(b)
  {
  }

  lemma Mix<T>(s: multiset<T>, i1: multiset<T>, o1: multiset<T>, t: multiset<T>, i2: multiset<T>, o2: multiset<T>, e: multiset<T>)
    requires t + o1 == s + i1 && e + o2 == t + i2
    ensures e + (o1 + o2) == s + (i1 + i2)
  {
    calc {
      e + (o1 + o2);
      (e + o2) + o1;
      (t + i2) + o1;
      (t + o1) + i2;
      (s + i1) + i2;
      s + (i1 + i2);
    }
  }

  lemma ChainConserves(s: Session, in1: seq<Frame>, r1: Result, s1: Session, in2: seq<Frame>, r2: Result, r: Result)
    requires Conserves(s, in1, r1) && s1.buf == r1.s.buf && Conserves(s1, in2, r2)
    requires r.s == r2.s && r.out == r1.out + r2.out
    ensures Conserves(s, in1 + in2, r)
  {
    FramesConcat(r1.out, r2.out);
    Bag(Frames(r1.out), Frames(r2.out));
    Bag(in1, in2);
    Mix(multiset(s.buf), multiset(in1), multiset(Frames(r1.out)), multiset(s1.buf),
        multiset(in2), multiset(Frames(r2.out)), multiset(r.s.buf));
  }

  lemma EnqueueConserves(s: Session, free: nat, rx: Rx)
    ensures Conserves(s, [rx.frame], Enqueue(s, free, rx))
  {
    if free > 0 && !rx.eap {
      var p := Position(s.buf, rx.frame.seqNo);
      assert s.buf == s.buf[..p] + s.buf[p..];
      assert Frames([Released(rx.frame)]) == [rx.frame];
    } else {
      PassConserves(s, if free > 0 then free - 1 else 0, rx);
    }
  }

  /** Handing a packet straight up. */
  lemma DirectConserves(s: Session, last: nat, free: nat, rx: Rx)
    ensures Conserves(s, [rx.frame], Result(s.(last := last), free, [Indicate(rx)]))
  {
    assert Frames([Indicate(rx)]) == [rx.frame];
  }

  lemma PassConserves(s: Session, free: nat, rx: Rx)
    ensures var r := ReleaseUpTo(s, free, rx.frame.seqNo);
      Conserves(s, [rx.frame], Result(r.s.(last := rx.frame.seqNo), r.free, r.out + [Indicate(rx)]))
  {
    hide Conserves, Frames, Indicate;
    var x := rx.frame.seqNo;
    var r := ReleaseUpTo(s, free, x);
    SplitConserves(s, UpTo(s.buf, x), r);
    DirectConserves(r.s, x, r.free, rx);
    ChainConserves(s, [], r, r.s, [rx.frame], Result(r.s.(last := x), r.free, [Indicate(rx)]),
                   Result(r.s.(last := x), r.free, r.out + [Indicate(rx)]));
    assert [] + [rx.frame] == [rx.frame];
  }

  lemma SlideConserves(s: Session, free: nat, rx: Rx)
    ensures Conserves(s, [rx.frame], Slide(s, free, rx))
  {
    hide Enqueue, Conserves, Frames;
    var w := WinStart(rx.frame.seqNo, s.win);
    var r1 := ReleaseUpTo(s, free, w);
    SplitConserves(s, UpTo(s.buf, w), r1);
    var s1 := r1.s.(last := w);
    var r2 := Enqueue(s1, r1.free, rx);
    EnqueueConserves(s1, r1.free, rx);
    var r12 := Result(r2.s, r2.free, r1.out + r2.out);
    ChainConserves(s, [], r1, s1, [rx.frame], r2, r12);
    var r3 := DrainFrom(r2.s, r2.free, r2.s.last);
    SplitConserves(r2.s, InOrder(r2.s.buf, r2.s.last), r3);
    ChainConserves(s, [] + [rx.frame], r12, r2.s, [], r3, Slide(s, free, rx));
    assert [] + [rx.frame] + [] == [rx.frame];
  }

  /** Every step, clean or not, with or without a free block, EAP or not. */
  lemma StepConserves(s: Session, free: nat, step: Step)
    ensures Conserves(s, Incoming(step), Do(s, free, step))
  {
    match step
    case Timeout(e) => FlushConserves(s, free, e);
    case Data(rx) => ArriveConserves(s, free, rx);
    case BlockAckReq(start) => SplitConserves(s, if SeqSmaller(s.last, start) then UpTo(s.buf, start) else 0, Bar(s, free, start));
    case IdleTimer(expired) => SplitConserves(s, if expired then |s.buf| else 0, Idle(s, free, expired));
  }

  lemma FlushConserves(s: Session, free: nat, e: Expiry)
    ensures Conserves(s, [], Flush(s, free, e))
  {
    hide Conserves, ReleaseUpTo, DrainFrom;
    if s.buf != [] && e.long && |s.buf| > 1 {
      SplitWhole(s);
      SplitConserves(s, |s.buf|, Refresh(s, free));
    } else if s.buf != [] && e.short {
      NudgeConserves(s, free);
    } else {
      SplitConserves(s, 0, Result(s, free, []));
    }
  }

  lemma NudgeConserves(s: Session, free: nat)
    ensures var x := (s.last + 1) % SEQ_SPACE;
      var r1 := ReleaseUpTo(s, free, x);
      var r2 := DrainFrom(r1.s.(last := x), r1.free, x);
      Conserves(s, [], Result(r2.s, r2.free, r1.out + r2.out))
  {
    hide Conserves, Frames;
    var nothing: seq<Frame> := [];
    var x := (s.last + 1) % SEQ_SPACE;
    var r1 := ReleaseUpTo(s, free, x);
    SplitConserves(s, UpTo(s.buf, x), r1);
    var s1 := r1.s.(last := x);
    var r2 := DrainFrom(s1, r1.free, x);
    SplitConserves(s1, InOrder(s1.buf, x), r2);
    ChainConserves(s, [], r1, s1, [], r2, Result(r2.s, r2.free, r1.out + r2.out));
    assert nothing + nothing == nothing;
  }

  lemma SplitWhole(s: Session)
    ensures s.buf[..|s.buf|] == s.buf && s.buf[|s.buf|..] == []
  {
  }

  lemma ArriveConserves(s: Session, free: nat, rx: Rx)
    ensures Conserves(s, [rx.frame], Arrive(s, free, rx))
  {
    hide Enqueue, Slide, DrainFrom, ReleaseUpTo;
    var x := rx.frame.seqNo;
    assert Frames([Indicate(rx)]) == [rx.frame];
    assert Frames([Released(rx.frame)]) == [rx.frame];
    EnqueueConserves(s, free, rx);
    SlideConserves(s, free, rx);
    if s.last != RESET_RCV_SEQ && SeqStepOne(x, s.last) {
      InTurnConserves(s, free, rx);
    }
  }

  lemma InTurnConserves(s: Session, free: nat, rx: Rx)
    ensures var r := DrainFrom(s.(last := rx.frame.seqNo), free, rx.frame.seqNo);
      Conserves(s, [rx.frame], Result(r.s, r.free, [Indicate(rx)] + r.out))
  {
    hide Conserves, Frames, Indicate;
    var x := rx.frame.seqNo;
    var s1 := s.(last := x);
    var r := DrainFrom(s1, free, x);
    DirectConserves(s, x, free, rx);
    SplitConserves(s1, InOrder(s.buf, x), r);
    ChainConserves(s, [rx.frame], Result(s1, free, [Indicate(rx)]), s1, [], r, Result(r.s, r.free, [Indicate(rx)] + r.out));
    assert [rx.frame] + [] == [rx.frame];
  }

  // ---------- the whole life of a session ----------

  /** A turn of a session in use, or its opening or reopening, closing, unloading, or a frame that is
      too long. */
  datatype Stage =
    | InUse(turn: Turn)
    | Opening(win: nat)
    | Closing
    | Unloading
    | Oversized(rx: Rx)

  function Pass(s: Session, stage: Stage): Result {
    match stage
    case InUse(t) => Do(s, t.free, t.step)
    case Opening(win) => Reopen(s, 0, win)
    case Closing => Reopen(s, 0, 0)
    case Unloading => Unload(s, 0)
    case Oversized(rx) => Result(s, 0, [Released(rx.frame)])
  }

  function Entering(stage: Stage): seq<Frame> {
    match stage
    case InUse(t) => Incoming(t.step)
    case Oversized(rx) => [rx.frame]
    case _ => []
  }

  lemma StageConserves(s: Session, stage: Stage)
    ensures Conserves(s, Entering(stage), Pass(s, stage))
  {
    hide Do, Incoming, Conserves;
    match stage
    case InUse(t) => StepConserves(s, t.free, t.step);
    case Opening(win) => ReopenConserves(s, win);
    case Closing => ReopenConserves(s, 0);
    case Unloading => UnloadConserves(s);
    case Oversized(rx) => OversizedConserves(s, rx);
  }

  lemma ReopenConserves(s: Session, win: nat)
    ensures Conserves(s, [], Reopen(s, 0, win))
  {
    SplitWhole(s);
    SplitConserves(s, |s.buf|, Reopen(s, 0, win));
  }

  lemma UnloadConserves(s: Session)
    ensures Conserves(s, [], Unload(s, 0))
  {
    assert Frames(Unload(s, 0).out) == s.buf;
  }

  lemma OversizedConserves(s: Session, rx: Rx)
    ensures Conserves(s, [rx.frame], Result(s, 0, [Released(rx.frame)]))
  {
    assert Frames([Released(rx.frame)]) == [rx.frame];
  }

  /** The session and everything it let out over a run. */
  function RunAll(s: Session, run: seq<Stage>): (Session, seq<Event>)
    decreases |run|
  {
    if run == [] then (s, [])
    else
      var r := Pass(s, run[0]);
      var (t, out) := RunAll(r.s, run[1..]);
      (t, r.out + out)
  }

  /** A data frame is one stage when it is too long, and otherwise two turns: its timeout flush and
      its arrival. */
  lemma IndicateAmpduIsTwoTurns(s: Session, free: nat, rx: Rx, e: Expiry)
    ensures var r := IndicateAmpdu(s, free, rx, e);
      RunAll(s, if TooBig(rx) then [Oversized(rx)]
                else [InUse(Turn(free, Timeout(e))), InUse(Turn(Flush(s, free, e).free, Data(rx)))]) == (r.s, r.out)
  {
    hide Flush, Arrive;
    if TooBig(rx) {
      RunOne(s, Oversized(rx));
    } else {
      var f := Flush(s, free, e);
      RunTwo(s, InUse(Turn(free, Timeout(e))), InUse(Turn(f.free, Data(rx))));
    }
  }

  lemma RunOne(s: Session, stage: Stage)
    ensures RunAll(s, [stage]) == (Pass(s, stage).s, Pass(s, stage).out)
  {
    hide Pass;
    assert [stage][1..] == [];
    assert Pass(s, stage).out + [] == Pass(s, stage).out;
  }

  lemma RunTwo(s: Session, one: Stage, two: Stage)
    ensures var p := Pass(s, one); RunAll(s, [one, two]) == (Pass(p.s, two).s, p.out + Pass(p.s, two).out)
  {
    hide Pass;
    assert [one, two][1..] == [two];
    RunOne(Pass(s, one).s, two);
  }

  function Received(run: seq<Stage>): seq<Frame> {
    if run == [] then [] else Entering(run[0]) + Received(run[1..])
  }

  /** Over any run whatever, through openings, closings and unloading, every frame received or
      waiting at the start is at the end handed up, released or waiting, exactly once. */
  lemma {:induction false} RunConserves(s: Session, run: seq<Stage>)
    ensures var (t, out) := RunAll(s, run);
      multiset(t.buf) + multiset(Frames(out)) == multiset(s.buf) + multiset(Received(run))
    decreases |run|
  {
    hide Pass, Entering, Frames;
    if run == [] {
      assert Frames([]) == [];
    } else {
      var r := Pass(s, run[0]);
      StageConserves(s, run[0]);
      RunConserves(r.s, run[1..]);
      var (t, out) := RunAll(r.s, run[1..]);
      ChainConserves(s, Entering(run[0]), r, r.s, Received(run[1..]), Result(t, 0, out), Result(t, 0, r.out + out));
    }
  }

  // ---------- blocks are not ----------

  /** An EAP frame ahead of its turn takes a block that nothing gives back. */
  lemma EapFrameLosesItsBlock(f: Frame)
    requires f.seqNo == 3
    ensures Arrive(Session(1, 8, []), 1, Rx(f, true, 0)) == Result(Session(3, 8, []), 0, [Indicate(Rx(f, true, 0))])
  {
    assert Announce([]) + [Indicate(Rx(f, true, 0))] == [Indicate(Rx(f, true, 0))];
  }

  /** Frames that meet the session one after the other. */
  function Feed(s: Session, free: nat, rxs: seq<Rx>): Result
    decreases |rxs|
  {
    if rxs == [] then Result(s, free, [])
    else
      var r := Arrive(s, free, rxs[0]);
      Then(r, Feed(r.s, r.free, rxs[1..]))
  }

  /** As many such frames as there are blocks, each one number ahead of its turn, empty the pool. */
  lemma {:induction false} EapFramesEmptyThePool(s: Session, rxs: seq<Rx>)
    requires s.buf == [] && s.last <= MAXSEQ && 2 <= s.win <= 255
    requires forall i :: 0 <= i < |rxs| ==> rxs[i].eap && rxs[i].frame.seqNo == (s.last + 2 * (i + 1)) % SEQ_SPACE
    ensures var r := Feed(s, |rxs|, rxs); r.free == 0 && r.s.buf == []
    decreases |rxs|
  {
    hide Arrive;
    if rxs != [] {
      var x := rxs[0].frame.seqNo;
      AheadTakesOne(s, |rxs|, rxs[0]);
      var rest := rxs[1..];
      forall i | 0 <= i < |rest| ensures rest[i].eap && rest[i].frame.seqNo == (x + 2 * (i + 1)) % SEQ_SPACE {
        assert rest[i] == rxs[i + 1];
        ModAdd(s.last + 2, 2 * (i + 1));
      }
      EapFramesEmptyThePool(Session(x, s.win, []), rest);
    }
  }

  lemma AheadTakesOne(s: Session, free: nat, rx: Rx)
    requires s.buf == [] && s.last <= MAXSEQ && 2 <= s.win <= 255 && free > 0
    requires rx.eap && rx.frame.seqNo == (s.last + 2) % SEQ_SPACE
    ensures var r := Arrive(s, free, rx); r.s == Session(rx.frame.seqNo, s.win, []) && r.free == free - 1
  {
    hide SeqSmaller, SeqStepOne, Enqueue, Slide, DrainFrom, Lost;
    AheadIsInWindow(s.last, s.win, rx.frame.seqNo);
    PassEmpty(s, free, rx);
  }

  /** Two ahead of the position is ahead, not next, and inside the window. */
  lemma AheadIsInWindow(last: nat, win: nat, x: SeqNo)
    requires last <= MAXSEQ && 2 <= win <= 255 && x == (last + 2) % SEQ_SPACE
    ensures !SeqStepOne(x, last) && x != last && !SeqSmaller(x, last) && SeqSmaller(x, (last + win + 1) % SEQ_SPACE)
  {
    hide SeqSmaller, SeqStepOne;
    assert last % SEQ_SPACE == last;
    StepOneIsNext(last + 2, last);
    SmallerIsLess(last + 2, last);
    SameIsEqual(last + 2, last);
    SmallerIsLess(last + 2, last + win + 1);
  }

  lemma PassEmpty(s: Session, free: nat, rx: Rx)
    requires s.buf == [] && rx.eap && free > 0
    ensures var r := Enqueue(s, free, rx); r.s == Session(rx.frame.seqNo, s.win, []) && r.free == free - 1
  {
  }
}
