/** How far every step moves a session: nothing is given up that need not be, everything received
    before the first gap goes up, and what waits does not wait for ever. */
module ReorderExact {
  import opened ReorderSpec
  import opened ReorderWide
  import opened ReorderRuns
  import opened Sequences

  // ---------- on unbounded numbers ----------

  /** From w to r: the position is the first one, from goal on, whose successor has not been received;
      of what has been received, everything up to it has gone up, and the rest waits. */
  ghost predicate Reaches(w: Wide, r: Wide, goal: int, received: set<int>) {
    && w.u <= r.u && goal <= r.u
    && (forall m {:trigger m in received} :: goal < m <= r.u ==> m in received)
    && r.u + 1 !in received
    && (forall y :: y in r.up <==> y in received && w.u < y <= r.u)
    && (forall y :: y in r.ns <==> y in received && y > r.u)
  }

  ghost function Waiting(w: Wide): set<int> {
    set y | y in w.ns
  }

  /** How far number n may push the position on its own: with a block, to the start of the window that
      ends at it; without one, to itself. */
  function Pushed(w: Wide, n: int, stored: bool): int {
    if n <= w.u then w.u
    else if stored || n == w.u + 1 then (if n - w.win > w.u then n - w.win else w.u)
    else n
  }

  lemma DrainReaches(w: Wide)
    requires Ascending(w.ns) && forall i :: 0 <= i < |w.ns| ==> w.ns[i] > w.u
    ensures var r := WDrain(w, w.u);
      && w.u <= r.u && r.u + 1 !in w.ns
      && (forall m {:trigger m in w.ns} :: w.u < m <= r.u ==> m in w.ns)
      && (forall y :: y in r.up <==> y in w.up || (y in w.ns && y <= r.u))
      && (forall y :: y in r.ns <==> y in w.ns && y > r.u)
  {
    hide Ascending, Consecutive;
    var k := Consecutive(w.ns, w.u);
    CutAscends(w.ns, k);
    ConsecutiveIs(w.ns, w.u, k);
    CutAtGap(w.ns, w.u, k);
  }

  /** The leading run and what lies behind the gap after it. */
  lemma CutAtGap(ns: seq<int>, u: int, k: nat)
    requires k <= |ns| && forall i :: 0 <= i < k ==> ns[i] == u + 1 + i
    requires forall i :: k <= i < |ns| ==> ns[i] > u + k + 1
    ensures u + k + 1 !in ns
    ensures forall m {:trigger m in ns} :: u < m <= u + k ==> m in ns
    ensures forall y :: y in ns[..k] <==> y in ns && y <= u + k
    ensures forall y :: y in ns[k..] <==> y in ns && y > u + k
  {
    assert ns == ns[..k] + ns[k..];
    forall m | u < m <= u + k ensures m in ns {
      assert ns[m - u - 1] == m;
    }
  }

  lemma ConsecutiveIs(ns: seq<int>, u: int, k: nat)
    requires k == Consecutive(ns, u) && Ascending(ns) && forall i :: 0 <= i < |ns| ==> ns[i] > u
    ensures forall i :: 0 <= i < k ==> ns[i] == u + 1 + i
    ensures forall i :: k <= i < |ns| ==> ns[i] > u + k + 1
  {
    if k < |ns| {
      if k > 0 { assert ns[k - 1] < ns[k]; }
      assert forall i :: k <= i < |ns| ==> ns[i] >= ns[k];
    }
  }

  lemma {:induction false} ArriveReaches(w: Wide, n: int, stored: bool)
    requires WTight(w) && w.up == [] && n < w.u + 2048 && WCleanData(w, n, stored)
    ensures Reaches(w, WArrive(w, n, stored), Pushed(w, n, stored), Waiting(w) + {n})
  {
    hide Ascending, WDrain, WRelease, Put, WSlide, Reaches;
    EmptyAscends(w.up);
    if n == w.u + 1 {
      InTurnReaches(w);
    } else if n <= w.u {
      StandingReaches(w, n);
    } else if stored && n <= w.u + w.win {
      StoredReaches(w, n);
    } else if stored {
      SlideStoredReaches(w, n);
    } else {
      PassReaches(w, n);
    }
  }

  lemma InTurnReaches(w: Wide)
    requires WTight(w) && w.up == []
    ensures Reaches(w, WArrive(w, w.u + 1, true), w.u, Waiting(w) + {w.u + 1})
    ensures Reaches(w, WArrive(w, w.u + 1, false), w.u, Waiting(w) + {w.u + 1})
  {
    hide Ascending, WDrain;
    var v := w.(u := w.u + 1, up := w.up + [w.u + 1]);
    DrainReaches(v);
  }

  lemma StandingReaches(w: Wide, n: int)
    requires WTight(w) && w.up == [] && n <= w.u
    ensures Reaches(w, w, w.u, Waiting(w) + {n})
  {
    hide Ascending;
  }

  lemma StoredReaches(w: Wide, n: int)
    requires WTight(w) && w.up == [] && w.u + 2 <= n <= w.u + w.win
    ensures Reaches(w, WEnqueue(w, n, true), w.u, Waiting(w) + {n})
  {
    hide Ascending, Put;
    if n !in w.ns { PutKeepsOrder(w.ns, n); }
  }

  lemma SlideStoredReaches(w: Wide, n: int)
    requires WTight(w) && w.up == [] && w.u + w.win < n
    ensures Reaches(w, WSlide(w, n, true), n - w.win, Waiting(w) + {n})
  {
    hide Ascending, Put, WDrain, WRelease;
    ReleaseOrders(w, n - w.win);
    var v := WRelease(w, n - w.win).(u := n - w.win);
    assert n !in v.ns;
    PutKeepsOrder(v.ns, n);
    var q := Put(v.ns, n);
    forall i | 0 <= i < |q| ensures q[i] > v.u { assert q[i] in q; }
    DrainReaches(v.(ns := q));
  }

  lemma PassReaches(w: Wide, n: int)
    requires WTight(w) && w.up == [] && w.u + 2 <= n && n !in w.ns && n + 1 !in w.ns
    ensures Reaches(w, WArrive(w, n, false), n, Waiting(w) + {n})
  {
    hide Ascending, Put, WDrain, WRelease;
    if n <= w.u + w.win {
      ReleaseOrders(w, n);
    } else {
      ReleaseOrders(w, n - w.win);
      var v := WRelease(w, n - w.win).(u := n - w.win);
      ReleaseAllFrom(v, n);
      var x := WEnqueue(v, n, false);
      assert x.up == v.up + v.ns + [n] && x.ns == [] && x.u == n;
      DrainNothing(x);
    }
  }

  lemma DrainNothing(w: Wide)
    requires w.ns == []
    ensures WDrain(w, w.u) == w
  {
  }

  lemma ReleaseAllFrom(v: Wide, n: int)
    requires Ascending(v.ns) && forall i :: 0 <= i < |v.ns| ==> v.ns[i] < n
    ensures WRelease(v, n).ns == [] && WRelease(v, n).up == v.up + v.ns
    ensures Ascending(WRelease(v, n).ns)
  {
    assert Below(v.ns, n) == |v.ns|;
    assert v.ns[..|v.ns|] == v.ns && v.ns[|v.ns|..] == [];
  }

  lemma BarReaches(w: Wide, n: int)
    requires WTight(w) && w.up == [] && (n > w.u ==> n !in w.ns)
    ensures Reaches(w, WBar(w, n), if n > w.u then n - 1 else w.u, Waiting(w))
  {
    hide Ascending, WRelease;
    if n > w.u { ReleaseOrders(w, n); }
  }

  lemma NudgeReaches(w: Wide)
    requires WTight(w) && w.up == []
    ensures Reaches(w, WNudge(w), w.u + 1, Waiting(w))
  {
    hide Ascending, WDrain, WRelease;
    NothingBelow(w);
    DrainReaches(w.(u := w.u + 1));
  }

  // ---------- on the 12-bit session ----------

  /** The session after a step, seen from position u before it. */
  ghost function After(s: Session, u: int, r: Result): Wide {
    var v := u + Dist(u, r.s.last);
    Wide(v, s.win, Numbers(v, r.s.buf), Numbers(u, Up(r.out)))
  }

  /** The numbers received: those waiting and the one a data frame brings. */
  ghost function Received(s: Session, u: int, step: Step): set<int> {
    Waiting(View(s, u)) + if step.Data? then {Nearest(u, step.rx.frame.seqNo)} else {}
  }

  /** What a step gives up on: numbers at or before this one are not waited for any longer. */
  ghost function Goal(s: Session, u: int, free: nat, step: Step): int {
    match step
    case Timeout(e) => if s.buf != [] && e.short then u + 1 else u
    case Data(rx) =>
      var n := Nearest(u, rx.frame.seqNo);
      Pushed(View(s, u), n, GetsBlock(View(s, u), n, free, rx.eap))
    case BlockAckReq(start) => if NearestUp(u, start) > u then NearestUp(u, start) - 1 else u
    case IdleTimer(expired) => u
  }

  /** The timeouts that take the position away. */
  predicate Resets(s: Session, step: Step) {
    match step
    case Timeout(e) => e.long && |s.buf| > 1
    case IdleTimer(expired) => expired
    case _ => false
  }

  /** They hand up everything that waits, in order, and leave nothing. */
  lemma ResetHandsUpAll(s: Session, free: nat, step: Step)
    requires s.last != RESET_RCV_SEQ && s.last <= MAXSEQ
    ensures var r := Do(s, free, step);
      && (r.s.last == RESET_RCV_SEQ <==> Resets(s, step))
      && (Resets(s, step) ==> r.s.buf == [] && Up(r.out) == s.buf && |r.out| == |s.buf| && r.free == free + |s.buf|)
  {
    UpAnnounce(s.buf);
  }

  /** Any other clean step of a live session: the position stops at the first gap from its goal on,
      what has been received before the gap goes up, the rest waits. */
  lemma StepStopsAtFirstGap(s: Session, u: int, free: nat, step: Step)
    requires Live(s) && s.last == u % SEQ_SPACE && Clean(s, free, step) && !Resets(s, step)
    ensures Reaches(View(s, u), After(s, u, Do(s, free, step)), Goal(s, u, free, step), Received(s, u, step))
  {
    hide Live, Reaches, Clean, Received, Goal, After;
    match step
    case Timeout(e) =>
      TimeoutStops(s, u, free, e);
    case Data(rx) =>
      DataStops(s, u, free, rx);
    case BlockAckReq(start) =>
      BarStops(s, u, free, start);
    case IdleTimer(expired) =>
      StandingStops(s, u, free);
      assert Goal(s, u, free, step) == u && Received(s, u, step) == Waiting(View(s, u)) by { IdleIs(s, u, free, expired); }
  }

  lemma IdleIs(s: Session, u: int, free: nat, expired: bool)
    ensures Goal(s, u, free, IdleTimer(expired)) == u && Received(s, u, IdleTimer(expired)) == Waiting(View(s, u))
  {
  }

  lemma StandingStops(s: Session, u: int, free: nat)
    requires Live(s) && s.last == u % SEQ_SPACE
    ensures Reaches(View(s, u), After(s, u, Result(s, free, [])), u, Waiting(View(s, u)))
  {
    LiveIsTight(s, u);
    DistAt(s.last, u, s.last as SeqNo);
    assert Dist(u, s.last) == 0;
  }

  lemma TimeoutStops(s: Session, u: int, free: nat, e: Expiry)
    requires Live(s) && s.last == u % SEQ_SPACE && !Resets(s, Timeout(e))
    ensures Reaches(View(s, u), After(s, u, Flush(s, free, e)), Goal(s, u, free, Timeout(e)), Received(s, u, Timeout(e)))
  {
    hide Live, Reaches, ReleaseUpTo, DrainFrom, Refresh, WNudge, WTight, Orderly, WFine;
    var w := View(s, u);
    assert Received(s, u, Timeout(e)) == Waiting(w);
    if s.buf != [] && e.short {
      LiveIsTight(s, u);
      NudgeRefines(s, w, free, e);
      NudgeIsFine(w);
      NudgeWithin(w);
      NudgeReaches(w);
      FineForward(w, WNudge(w));
      FineIsAhead(w, WNudge(w));
      VerdictCarries(s, u, Flush(s, free, e), WNudge(w));
    } else {
      StandingStops(s, u, free);
    }
  }

  lemma FineForward(w: Wide, r: Wide)
    requires WFine(w, r)
    ensures r.u >= w.u && r.win == w.win
  {
  }

  lemma DataStops(s: Session, u: int, free: nat, rx: Rx)
    requires Live(s) && s.last == u % SEQ_SPACE && Clean(s, free, Data(rx))
    ensures Reaches(View(s, u), After(s, u, Arrive(s, free, rx)), Goal(s, u, free, Data(rx)), Received(s, u, Data(rx)))
  {
    hide Orderly, Live, Arrive, WArrive, WTight, Shows, WCleanData, Clean, Reaches, GetsBlock, Pushed;
    LiveIsTight(s, u);
    var w := View(s, u);
    var n := Nearest(u, rx.frame.seqNo);
    var stored := ArriveRefines(s, w, free, rx);
    BlockInWindow(w, n, free, rx.eap);
    CleanDataCarries(s, u, free, rx, stored);
    ArriveReaches(w, n, stored);
    ArriveWithin(w, n, stored);
    ArriveAhead(w, n, stored);
    ArriveForward(w, n, stored);
    VerdictCarries(s, u, Arrive(s, free, rx), WArrive(w, n, stored));
  }

  lemma BlockInWindow(w: Wide, n: int, free: nat, eap: bool)
    ensures n <= w.u + w.win ==> GetsBlock(w, n, free, eap) == (free > 0 && !eap)
  {
  }

  lemma BarStops(s: Session, u: int, free: nat, start: SeqNo)
    requires Live(s) && s.last == u % SEQ_SPACE && Clean(s, free, BlockAckReq(start))
    ensures Reaches(View(s, u), After(s, u, Bar(s, free, start)), Goal(s, u, free, BlockAckReq(start)), Received(s, u, BlockAckReq(start)))
  {
    hide Orderly, Live, Bar, WTight, Shows, WBar, Reaches;
    LiveIsTight(s, u);
    var w := View(s, u);
    var n := NearestUp(u, start);
    assert Received(s, u, BlockAckReq(start)) == Waiting(w);
    BarRefines(s, w, free, start);
    BarWithin(w, n);
    SmallerIsLess(u, n);
    if n > u { WaitingCarries(s, u, n); }
    BarReaches(w, n);
    BarForward(w, n);
    VerdictCarries(s, u, Bar(s, free, start), WBar(w, n));
  }

  lemma BarForward(w: Wide, n: int)
    ensures WBar(w, n).u >= w.u
  {
  }

  // ---------- runs that lose nothing ----------

  function Range(lo: int, hi: int): (r: seq<int>)
    ensures |r| == (if lo <= hi then hi - lo + 1 else 0) && forall i :: 0 <= i < |r| ==> r[i] == lo + i
  {
    seq(if lo <= hi then hi - lo + 1 else 0, i => lo + i)
  }

  lemma LastIsTop(ns: seq<int>, lo: int, hi: int)
    requires Ascending(ns) && Between(ns, lo, hi) && lo <= hi && forall y :: lo <= y <= hi ==> y in ns
    ensures ns != [] && ns[|ns| - 1] == hi
  {
    assert hi in ns;
    assert forall i :: 0 <= i < |ns| ==> ns[i] <= ns[|ns| - 1];
  }

  lemma WithoutTop(most: seq<int>, lo: int, hi: int)
    requires Ascending(most + [hi]) && Between(most + [hi], lo, hi)
    ensures Ascending(most) && Between(most, lo, hi - 1)
  {
    var ns := most + [hi];
    assert ns[|most|] == hi && forall i :: 0 <= i < |most| ==> ns[i] == most[i];
  }

  lemma RangeTop(lo: int, hi: int)
    requires lo <= hi
    ensures Range(lo, hi) == Range(lo, hi - 1) + [hi]
  {
  }

  lemma {:induction false} AscendingIsRange(ns: seq<int>, lo: int, hi: int)
    requires Ascending(ns) && Between(ns, lo, hi) && lo <= hi + 1 && forall y :: lo <= y <= hi ==> y in ns
    ensures ns == Range(lo, hi)
    decreases hi - lo
  {
    hide Ascending, Between, Range;
    if lo <= hi {
      LastIsTop(ns, lo, hi);
      var most := ns[..|ns| - 1];
      assert ns == most + [hi];
      WithoutTop(most, lo, hi);
      forall y | lo <= y <= hi - 1
        ensures y in most
      {
        assert y in most + [hi];
      }
      AscendingIsRange(most, lo, hi - 1);
      RangeTop(lo, hi);
    } else {
      AscendingFits(ns, lo, hi);
      RangeNone(lo, hi);
    }
  }

  lemma RangeNone(lo: int, hi: int)
    requires lo > hi
    ensures Range(lo, hi) == []
  {
  }

  /** A data frame in order, or not beyond the window and with a block for it. */
  ghost predicate InReach(t: Epochs, turn: Turn) {
    && t.s.last != RESET_RCV_SEQ && turn.step.Data?
    && var n := Nearest(t.u, turn.step.rx.frame.seqNo);
       n <= t.u + 1 || (n <= t.u + t.s.win && turn.free > 0 && !turn.step.rx.eap)
  }

  ghost predicate AllInReach(t: Epochs, run: seq<Turn>)
    decreases |run|
  {
    run != [] ==> InReach(t, run[0]) && AllInReach(Observe(t, run[0].free, run[0].step), run[1..])
  }

  lemma InReachIsClean(t: Epochs, turn: Turn)
    requires InOrderSoFar(t) && InReach(t, turn)
    ensures Clean(t.s, turn.free, turn.step)
    ensures Goal(t.s, t.u, turn.free, turn.step) == t.u
  {
    var x := turn.step.rx.frame.seqNo;
    DistAt(t.s.last, t.u, x);
  }

  lemma TurnLosesNothing(t: Epochs, turn: Turn)
    requires InOrderSoFar(t) && InReach(t, turn)
    ensures var o := Observe(t, turn.free, turn.step);
      InOrderSoFar(o) && o.u >= t.u && o.current == t.current + Range(t.u + 1, o.u)
  {
    hide Live, Do, Clean, Up, Numbers, Goal, Received;
    InReachIsClean(t, turn);
    ObserveKeepsOrder(t, turn.free, turn.step);
    StepIsOrderlyIffClean(t.s, t.u, turn.free, turn.step);
    StepStopsAtFirstGap(t.s, t.u, turn.free, turn.step);
    LiveShape(t.s);
    KeepsPosition(t.s, turn.free, turn.step);
    var r := Do(t.s, turn.free, turn.step);
    forall y | t.u + 1 <= y <= t.u + Dist(t.u, r.s.last) ensures y in Numbers(t.u, Up(r.out)) {
      assert y in Received(t.s, t.u, turn.step);
      assert y in After(t.s, t.u, r).up;
    }
    AscendingIsRange(Numbers(t.u, Up(r.out)), t.u + 1, t.u + Dist(t.u, r.s.last));
  }

  lemma NothingRanges(u: int)
    ensures Range(u + 1, u) == []
  {
  }

  lemma RangesJoin(c: seq<int>, u: int, v: int, o: int)
    requires u <= v <= o
    ensures c + Range(u + 1, v) + Range(v + 1, o) == c + Range(u + 1, o)
  {
    hide Range;
    RangesMeet(u, v, o);
    Regroup(c, Range(u + 1, v), Range(v + 1, o));
  }

  lemma RangesMeet(u: int, v: int, o: int)
    requires u <= v <= o
    ensures Range(u + 1, v) + Range(v + 1, o) == Range(u + 1, o)
  {
    hide Range;
  }

  /** As long as frames come no further ahead than the window and find a block, every number up to the
      position goes up, each once and in order, whatever order the frames came in. */
  lemma {:induction false} RunLosesNothing(t: Epochs, run: seq<Turn>)
    requires InOrderSoFar(t) && AllInReach(t, run)
    ensures var o := ObserveAll(t, run);
      InOrderSoFar(o) && o.u >= t.u && o.current == t.current + Range(t.u + 1, o.u)
    decreases |run|
  {
    hide InOrderSoFar, InReach, Observe, Range;
    if run == [] {
      NothingRanges(t.u);
    } else {
      var v := Observe(t, run[0].free, run[0].step);
      TurnLosesNothing(t, run[0]);
      RunLosesNothing(v, run[1..]);
      RangesJoin(t.current, t.u, v.u, ObserveAll(t, run).u);
    }
  }

  // ---------- nothing waits for ever ----------

  /** The session after that many short timeouts. */
  function Timeouts(s: Session, k: nat): Session
    decreases k
  {
    if k == 0 then s else Timeouts(Flush(s, 0, Expiry(false, true)).s, k - 1)
  }

  /** With everything that waits at or before number b, as many short timeouts as b is away empty the
      list. */
  lemma {:induction false} TimeoutsEmptyWithin(s: Session, u: int, b: int, k: nat)
    requires Live(s) && s.last == u % SEQ_SPACE && k >= b - u
    requires forall i :: 0 <= i < |s.buf| ==> Numbers(u, s.buf)[i] <= b
    ensures Timeouts(s, k).buf == []
    decreases k
  {
    hide Live, Numbers, Flush, Goal;
    if s.buf == [] {
      StaysEmpty(s, k);
    } else {
      Ahead(s, u);
      var step := Timeout(Expiry(false, true));
      var r := Flush(s, 0, Expiry(false, true));
      TimeoutIsOrderly(s, u, 0, Expiry(false, true));
      StepStopsAtFirstGap(s, u, 0, step);
      TimeoutGoal(s, u);
      ShortKeepsPosition(s);
      var v := After(s, u, r);
      DistAt(s.last, u, r.s.last as SeqNo);
      forall i | 0 <= i < |r.s.buf| ensures Numbers(v.u, r.s.buf)[i] <= b {
        assert v.ns[i] in v.ns;
        assert v.ns[i] in Waiting(View(s, u));
      }
      TimeoutsEmptyWithin(r.s, v.u, b, k - 1);
    }
  }

  lemma Ahead(s: Session, u: int)
    requires Live(s) && s.last == u % SEQ_SPACE && s.buf != []
    ensures u + 2 <= Numbers(u, s.buf)[0] <= u + s.win
  {
    LiveIsTight(s, u);
  }

  lemma TimeoutGoal(s: Session, u: int)
    requires s.buf != []
    ensures Goal(s, u, 0, Timeout(Expiry(false, true))) == u + 1
    ensures Received(s, u, Timeout(Expiry(false, true))) == Waiting(View(s, u))
  {
  }

  lemma ShortKeepsPosition(s: Session)
    requires s.buf != []
    ensures Flush(s, 0, Expiry(false, true)).s.last <= MAXSEQ
  {
  }

  lemma {:induction false} StaysEmpty(s: Session, k: nat)
    requires s.buf == []
    ensures Timeouts(s, k).buf == []
  {
    if k > 0 { StaysEmpty(s, k - 1); }
  }

  /** However the numbers lie, as many short timeouts as the window is wide empty the list. */
  lemma WindowOfTimeoutsEmpties(s: Session, k: nat)
    requires Live(s) && s.last != RESET_RCV_SEQ && k >= s.win
    ensures Timeouts(s, k).buf == []
  {
    LiveIsTight(s, s.last);
    TimeoutsEmptyWithin(s, s.last, s.last + s.win, k);
  }
}
