/** The reorder machine over unbounded sequence numbers, where "before" is "<". It keeps the window
    and the delivery order, and the 12-bit machine of ReorderSpec is shown to be its image. */
module ReorderWide {
  import opened ReorderSpec

  // ---------- the unbounded machine ----------

  ghost predicate Ascending(ns: seq<int>) {
    forall i, j :: 0 <= i < j < |ns| ==> ns[i] < ns[j]
  }

  ghost predicate Between(ns: seq<int>, lo: int, hi: int) {
    forall i :: 0 <= i < |ns| ==> lo <= ns[i] <= hi
  }

  /** Number of leading entries up to x. */
  function Below(ns: seq<int>, x: int): (n: nat)
    ensures n <= |ns|
    ensures forall i :: 0 <= i < n ==> ns[i] <= x
    ensures n < |ns| ==> ns[n] > x
  {
    if ns == [] || ns[0] > x then 0 else 1 + Below(ns[1..], x)
  }

  /** Number of leading entries that count on from x one by one. */
  function Consecutive(ns: seq<int>, x: int): (n: nat)
    ensures n <= |ns|
    ensures forall i :: 0 <= i < n ==> ns[i] == x + 1 + i
    ensures n < |ns| ==> ns[n] != x + 1 + n
  {
    if ns == [] || ns[0] != x + 1 then 0 else 1 + Consecutive(ns[1..], x + 1)
  }

  // ---------- serial comparison is comparison, as long as numbers stay close ----------

  lemma SmallerIsLess(a: int, b: int)
    requires -2048 <= a - b < 2048
    ensures SeqSmaller(a % SEQ_SPACE, b % SEQ_SPACE) <==> a < b
  {
    assert (a % SEQ_SPACE - b % SEQ_SPACE) % SEQ_SPACE == (a - b) % SEQ_SPACE;
  }

  lemma StepOneIsNext(a: int, b: int)
    requires -2048 <= a - b < 2048
    ensures SeqStepOne(a % SEQ_SPACE, b % SEQ_SPACE) <==> a == b + 1
  {
  }

  lemma SameIsEqual(a: int, b: int)
    requires -4096 < a - b < 4096
    ensures a % SEQ_SPACE == b % SEQ_SPACE <==> a == b
  {
  }

  lemma DistIsDifference(a: int, b: int)
    requires 0 <= b - a < 4096
    ensures Dist(a % SEQ_SPACE, b % SEQ_SPACE) == b - a
  {
  }

  // ---------- lists of frames and their numbers ----------

  /** Frame i carries the low 12 bits of number i. */
  ghost predicate Carries(fs: seq<Frame>, ns: seq<int>) {
    |fs| == |ns| && forall i :: 0 <= i < |fs| ==> fs[i].seqNo == ns[i] % SEQ_SPACE
  }

  ghost predicate Near(ns: seq<int>, x: int) {
    forall i :: 0 <= i < |ns| ==> -2048 <= ns[i] - x < 2048
  }

  lemma {:induction false} UpToIsBelow(fs: seq<Frame>, ns: seq<int>, x: int)
    requires Carries(fs, ns) && Near(ns, x)
    ensures UpTo(fs, x % SEQ_SPACE) == Below(ns, x)
  {
    if fs != [] {
      SmallerIsLess(ns[0], x);
      SameIsEqual(ns[0], x);
      UpToIsBelow(fs[1..], ns[1..], x);
    }
  }

  lemma {:induction false} InOrderIsConsecutive(fs: seq<Frame>, ns: seq<int>, x: int, hi: int)
    requires Carries(fs, ns) && Ascending(ns) && Between(ns, x + 1, hi) && hi - x < 2048
    ensures InOrder(fs, x % SEQ_SPACE) == Consecutive(ns, x)
  {
    if fs != [] {
      StepOneIsNext(ns[0], x);
      if ns[0] == x + 1 {
        forall i | 0 <= i < |ns[1..]| ensures x + 2 <= ns[1..][i] <= hi {
          assert ns[1..][i] == ns[i + 1] > ns[0];
        }
        InOrderIsConsecutive(fs[1..], ns[1..], x + 1, hi);
      }
    }
  }

  /** Number of leading entries before x. */
  function Before(ns: seq<int>, x: int): (n: nat)
    ensures n <= |ns|
    ensures forall i :: 0 <= i < n ==> ns[i] < x
    ensures n < |ns| ==> ns[n] >= x
  {
    if ns == [] || ns[0] >= x then 0 else 1 + Before(ns[1..], x)
  }

  lemma {:induction false} PositionIsBefore(fs: seq<Frame>, ns: seq<int>, x: int)
    requires Carries(fs, ns) && Near(ns, x)
    ensures Position(fs, x % SEQ_SPACE) == Before(ns, x)
  {
    if fs != [] {
      SmallerIsLess(ns[0], x);
      PositionIsBefore(fs[1..], ns[1..], x);
    }
  }

  /** ns with x in its place. */
  ghost function Put(ns: seq<int>, x: int): seq<int> {
    ns[..Before(ns, x)] + [x] + ns[Before(ns, x)..]
  }

  lemma PutKeepsOrder(ns: seq<int>, x: int)
    requires Ascending(ns) && x !in ns
    ensures Ascending(Put(ns, x))
    ensures forall y :: y in Put(ns, x) <==> y in ns || y == x
  {
    var p := Before(ns, x);
    forall i | p <= i < |ns| ensures ns[i] > x {
      assert ns[p] > x;
    }
    PutAscends(ns, p, x);
    assert ns == ns[..p] + ns[p..];
  }

  lemma PutAscends(ns: seq<int>, p: nat, x: int)
    requires Ascending(ns) && p <= |ns|
    requires (forall i :: 0 <= i < p ==> ns[i] < x) && forall i :: p <= i < |ns| ==> x < ns[i]
    ensures Ascending(ns[..p] + [x] + ns[p..])
  {
  }

  lemma InsertIsPut(fs: seq<Frame>, ns: seq<int>, f: Frame, x: int)
    requires Carries(fs, ns) && Ascending(ns) && Near(ns, x) && f.seqNo == x % SEQ_SPACE
    ensures Duplicate(fs, f.seqNo) <==> x in ns
    ensures x !in ns ==> Carries(Insert(fs, f), Put(ns, x))
  {
    PositionIsBefore(fs, ns, x);
    var p := Before(ns, x);
    if p < |ns| {
      SameIsEqual(ns[p], x);
    }
    if x in ns {
      var i :| 0 <= i < |ns| && ns[i] == x;
      assert p <= i;
      assert p == i;
    }
  }

  // ---------- what goes up ----------

  /** The frames handed to the upper layer, in order. */
  function Up(es: seq<Event>): seq<Frame> {
    if es == [] then []
    else (if es[0].Released? then [] else [es[0].frame]) + Up(es[1..])
  }

  lemma {:induction false} UpConcat(a: seq<Event>, b: seq<Event>)
    ensures Up(a + b) == Up(a) + Up(b)
  {
    if a == [] {
      assert a + b == b;
    } else {
      assert (a + b)[1..] == a[1..] + b;
      UpConcat(a[1..], b);
    }
  }

  lemma {:induction false} UpAnnounce(fs: seq<Frame>)
    ensures Up(Announce(fs)) == fs
  {
    if fs != [] {
      assert Announce(fs)[1..] == Announce(fs[1..]);
      UpAnnounce(fs[1..]);
    }
  }

  // ---------- the wide machine ----------

  /** Position u, window, numbers waiting, numbers handed up so far. */
  datatype Wide = Wide(u: int, win: nat, ns: seq<int>, up: seq<int>)

  ghost function WDrain(w: Wide, start: int): Wide {
    var k := Consecutive(w.ns, start);
    Wide(if k == 0 then w.u else w.ns[k - 1], w.win, w.ns[k..], w.up + w.ns[..k])
  }

  ghost function WRelease(w: Wide, x: int): Wide {
    var k := Below(w.ns, x);
    Wide(w.u, w.win, w.ns[k..], w.up + w.ns[..k])
  }

  /** stored: a block was there and the frame was not EAP. */
  ghost function WEnqueue(w: Wide, n: int, stored: bool): Wide {
    if stored then (if n in w.ns then w else w.(ns := Put(w.ns, n)))
    else var r := WRelease(w, n); r.(u := n, up := r.up + [n])
  }

  ghost function WSlide(w: Wide, n: int, stored: bool): Wide {
    var r := WEnqueue(WRelease(w, n - w.win).(u := n - w.win), n, stored);
    WDrain(r, r.u)
  }

  ghost function WArrive(w: Wide, n: int, stored: bool): Wide {
    if n == w.u + 1 then WDrain(w.(u := n, up := w.up + [n]), n)
    else if n <= w.u then w
    else if n <= w.u + w.win then WEnqueue(w, n, stored)
    else WSlide(w, n, stored)
  }

  ghost function WBar(w: Wide, n: int): Wide {
    if n > w.u then WRelease(w, n).(u := n - 1) else w
  }

  /** The short timeout. */
  ghost function WNudge(w: Wide): Wide {
    WDrain(WRelease(w, w.u + 1).(u := w.u + 1), w.u + 1)
  }

  /** The state of every live session: what waits lies in the window, two or more ahead. */
  ghost predicate WTight(w: Wide) {
    1 <= w.win <= 255 && Ascending(w.ns) && Between(w.ns, w.u + 2, w.u + w.win)
  }

  /** Nothing went up twice or out of order, and the position covers all of it. */
  ghost predicate WOrdered(u: int, w: Wide) {
    Ascending(w.up) && Between(w.up, u + 1, w.u)
  }

  lemma CutAscends(ns: seq<int>, k: nat)
    requires Ascending(ns) && k <= |ns|
    ensures Ascending(ns[..k]) && Ascending(ns[k..])
    ensures forall i :: 0 <= i < |ns| - k ==> ns[k..][i] == ns[k + i] >= ns[k]
  {
  }

  lemma JoinAscends(a: seq<int>, b: seq<int>, lo: int, m: int, hi: int)
    requires Ascending(a) && Ascending(b) && Between(a, lo, m) && Between(b, m + 1, hi) && lo <= m + 1 && m <= hi
    ensures Ascending(a + b) && Between(a + b, lo, hi)
  {
  }

  lemma DrainTightens(w: Wide, u: int)
    requires Ascending(w.ns) && Between(w.ns, w.u + 1, u + 4096) && WOrdered(u, w) && u <= w.u
    ensures var r := WDrain(w, w.u);
      WOrdered(u, r) && Ascending(r.ns) && (forall i :: 0 <= i < |r.ns| ==> r.ns[i] >= r.u + 2) && r.u >= w.u
  {
    hide Ascending, Consecutive;
    var k := Consecutive(w.ns, w.u);
    var r := WDrain(w, w.u);
    CutAscends(w.ns, k);
    JoinAscends(w.up, w.ns[..k], u + 1, w.u, r.u);
    if k < |w.ns| { DrainStops(w, k); }
  }

  /** What stays behind begins at least two numbers on. */
  lemma DrainStops(w: Wide, k: nat)
    requires Ascending(w.ns)
    requires k == Consecutive(w.ns, w.u) < |w.ns| && (k == 0 ==> w.ns[0] >= w.u + 1)
    ensures w.ns[k] >= w.u + k + 2
  {
    assert k > 0 ==> w.ns[k - 1] < w.ns[k];
  }

  lemma ReleaseOrders(w: Wide, x: int)
    requires WTight(w) && w.up == [] && w.u <= x
    ensures var r := WRelease(w, x);
      r.u == w.u && r.win == w.win && Ascending(r.up) && Between(r.up, w.u + 1, x) && (forall i :: 0 <= i < |r.ns| ==> r.ns[i] > x)
      && Ascending(r.ns) && Between(r.ns, w.u + 2, w.u + w.win)
      && (forall y :: y in r.up <==> y in w.ns && y <= x)
      && (forall y :: y in r.ns <==> y in w.ns && y > x)
  {
    hide Ascending, Below;
    var k := Below(w.ns, x);
    CutAscends(w.ns, k);
    CutBelow(w.ns, x);
    assert [] + w.ns[..k] == w.ns[..k];
  }

  lemma CutBelow(ns: seq<int>, x: int)
    requires Ascending(ns)
    ensures var k := Below(ns, x);
      && (forall y :: y in ns[..k] <==> y in ns && y <= x)
      && (forall y :: y in ns[k..] <==> y in ns && y > x)
  {
    hide Below;
    var k := Below(ns, x);
    forall i | k <= i < |ns| ensures ns[i] > x {
      assert ns[k] <= ns[i];
    }
    assert ns == ns[..k] + ns[k..];
  }

  /** A step keeps the guarantee: still tight, and what went up is in order up to the position. */
  ghost predicate WFine(w: Wide, r: Wide) {
    WTight(r) && WOrdered(w.u, r) && r.win == w.win && r.u >= w.u
  }

  lemma NudgeIsFine(w: Wide)
    requires WTight(w) && w.up == []
    ensures WFine(w, WNudge(w))
  {
    hide Ascending, WDrain, WRelease;
    var r := w.(u := w.u + 1);
    EmptyAscends(w.up);
    NothingBelow(w);
    DrainTightens(r, w.u);
    DrainStays(r, w.u + w.win);
  }

  lemma EmptyAscends(ns: seq<int>)
    requires ns == []
    ensures Ascending(ns)
  {
  }

  lemma NothingBelow(w: Wide)
    requires Between(w.ns, w.u + 2, w.u + w.win) && w.up == []
    ensures WRelease(w, w.u + 1) == w
  {
    assert w.ns[..0] == [] && w.ns[0..] == w.ns;
  }

  /** Exactly when a data frame keeps the guarantee: always, unless it falls into the window and
      finds no block (or is EAP) while it or its successor waits in the list. */
  ghost predicate WCleanData(w: Wide, n: int, stored: bool) {
    w.u + 2 <= n <= w.u + w.win && !stored ==> n !in w.ns && n + 1 !in w.ns
  }

  lemma AscendingAppend(ns: seq<int>, n: int)
    requires Ascending(ns) && forall i :: 0 <= i < |ns| ==> ns[i] < n
    ensures Ascending(ns + [n])
  {
  }

  /** Releasing everything before n and then n itself. */
  lemma PassThroughClean(w: Wide, n: int)
    requires WTight(w) && w.up == [] && w.u + 2 <= n <= w.u + w.win
    requires n !in w.ns && n + 1 !in w.ns
    ensures WFine(w, WEnqueue(w, n, false))
  {
    ReleaseOrders(w, n);
    var rel := WRelease(w, n);
    hide WRelease, Below;
    forall i | 0 <= i < |rel.up| ensures rel.up[i] < n { assert rel.up[i] in rel.up; }
    AscendingAppend(rel.up, n);
    forall i | 0 <= i < |rel.ns| ensures rel.ns[i] >= n + 2 { assert rel.ns[i] in rel.ns; }
  }

  lemma PassThroughUnclean(w: Wide, n: int)
    requires WTight(w) && w.up == [] && w.u + 2 <= n <= w.u + w.win
    requires n in w.ns || n + 1 in w.ns
    ensures !WFine(w, WEnqueue(w, n, false))
  {
    ReleaseOrders(w, n);
    var rel := WRelease(w, n);
    hide WRelease, Below;
    if n in w.ns {
      var i :| 0 <= i < |rel.up| && rel.up[i] == n;
      assert (rel.up + [n])[i] == n && (rel.up + [n])[|rel.up|] == n;
    } else {
      assert n + 1 in rel.ns;
    }
  }

  lemma PutLast(ns: seq<int>, n: int)
    requires forall i :: 0 <= i < |ns| ==> ns[i] < n
    ensures Put(ns, n) == ns + [n] && n !in ns
  {
    assert Before(ns, n) == |ns|;
  }

  lemma SlideStoredIsFine(w: Wide, n: int)
    requires WTight(w) && w.up == [] && w.u + w.win < n < w.u + 2048
    ensures WFine(w, WSlide(w, n, true))
  {
    hide Ascending, WDrain, WRelease, Put;
    var x := n - w.win;
    ReleaseOrders(w, x);
    var rel := WRelease(w, x);
    PutLast(rel.ns, n);
    var all := rel.(u := x, ns := rel.ns + [n]);
    assert WEnqueue(rel.(u := x), n, true) == all;
    AscendingAppend(rel.ns, n);
    DrainTightens(all, w.u);
    DrainStays(all, n);
  }

  /** Everything waiting and then n go up. */
  lemma AllUpIsFine(w: Wide, n: int)
    requires WTight(w) && w.u + w.win < n
    ensures WFine(w, Wide(n, w.win, [], w.ns + [n]))
  {
    AscendingAppend(w.ns, n);
  }

  lemma SlideUnstored(w: Wide, n: int)
    requires WTight(w) && w.up == [] && w.u + w.win < n
    ensures WSlide(w, n, false) == Wide(n, w.win, [], w.ns + [n])
  {
    hide Ascending, WDrain;
    var x := n - w.win;
    var r1 := WRelease(w, x).(u := x);
    assert r1.win == w.win && r1.up + r1.ns == w.ns;
    ReleaseAll(r1, n);
    hide WRelease;
    var all := Wide(n, w.win, [], w.ns + [n]);
    assert WEnqueue(r1, n, false) == all;
    DrainNothing(all);
  }

  lemma DrainNothing(w: Wide)
    requires w.ns == []
    ensures WDrain(w, w.u) == w
  {
    assert w.up + [] == w.up;
  }

  lemma ReleaseAll(w: Wide, n: int)
    requires forall i :: 0 <= i < |w.ns| ==> w.ns[i] < n
    ensures WRelease(w, n) == w.(ns := [], up := w.up + w.ns)
  {
    assert Below(w.ns, n) == |w.ns|;
  }

  lemma DrainStays(w: Wide, hi: int)
    requires forall i :: 0 <= i < |w.ns| ==> w.ns[i] <= hi
    ensures forall i :: 0 <= i < |WDrain(w, w.u).ns| ==> WDrain(w, w.u).ns[i] <= hi
    ensures WDrain(w, w.u).win == w.win
  {
  }

  lemma ArriveIsFine(w: Wide, n: int, stored: bool)
    requires WTight(w) && w.up == [] && n < w.u + 2048
    ensures WFine(w, WArrive(w, n, stored)) <==> WCleanData(w, n, stored)
  {
    if n == w.u + 1 {
      var r := w.(u := n, up := [n]);
      assert w.up + [n] == [n];
      DrainTightens(r, w.u);
      var d := WDrain(r, n);
      forall i | 0 <= i < |d.ns| ensures d.ns[i] <= d.u + w.win {
        assert d.ns[i] == w.ns[i + |w.ns| - |d.ns|];
      }
    } else if w.u < n <= w.u + w.win {
      if !stored {
        if WCleanData(w, n, stored) { PassThroughClean(w, n); } else { PassThroughUnclean(w, n); }
      } else if n !in w.ns {
        PutKeepsOrder(w.ns, n);
        var r := WEnqueue(w, n, true);
        forall i | 0 <= i < |r.ns| ensures w.u + 2 <= r.ns[i] <= w.u + w.win {
          assert r.ns[i] in Put(w.ns, n);
        }
      }
    } else if n > w.u {
      if stored { SlideStoredIsFine(w, n); } else { SlideUnstored(w, n); AllUpIsFine(w, n); }
    }
  }

  /** Exactly when a BlockAckReq keeps the guarantee: its start number is not itself waiting. */
  lemma BarIsFine(w: Wide, n: int)
    requires WTight(w) && w.up == []
    ensures WFine(w, WBar(w, n)) <==> (n > w.u ==> n !in w.ns)
  {
    hide Ascending, WRelease;
    EmptyAscends(w.up);
    if n > w.u {
      ReleaseOrders(w, n);
      BarPosition(w, n);
      var up := WRelease(w, n).up;
      if n in w.ns {
        var i :| 0 <= i < |up| && up[i] == n;
      } else {
        forall i | 0 <= i < |up| ensures w.u + 1 <= up[i] <= n - 1 { assert up[i] in up; }
      }
    }
  }

  lemma BarPosition(w: Wide, n: int)
    requires n > w.u
    ensures WBar(w, n) == WRelease(w, n).(u := n - 1)
  {
  }

  // ---------- the 12-bit machine does what the wide machine does ----------

  /** Session s, having produced out, is the 12-bit image of w. */
  ghost predicate Shows(s: Session, out: seq<Event>, w: Wide) {
    && Carries(s.buf, w.ns) && Carries(Up(out), w.up)
    && s.win == w.win && s.last == w.u % SEQ_SPACE
  }

  lemma CarriesConcat(f1: seq<Frame>, n1: seq<int>, f2: seq<Frame>, n2: seq<int>)
    requires Carries(f1, n1) && Carries(f2, n2)
    ensures Carries(f1 + f2, n1 + n2)
  {
  }

  lemma ReleaseRefines(s: Session, out: seq<Event>, w: Wide, free: nat, x: int)
    requires Shows(s, out, w) && Near(w.ns, x)
    ensures var r := ReleaseUpTo(s, free, x % SEQ_SPACE);
      Shows(r.s, out + r.out, WRelease(w, x))
  {
    UpToIsBelow(s.buf, w.ns, x);
    var k := Below(w.ns, x);
    var r := ReleaseUpTo(s, free, x % SEQ_SPACE);
    UpConcat(out, r.out);
    UpAnnounce(s.buf[..k]);
    CarriesConcat(Up(out), w.up, s.buf[..k], w.ns[..k]);
  }

  lemma DrainRefines(s: Session, out: seq<Event>, w: Wide, free: nat)
    requires Shows(s, out, w) && Ascending(w.ns) && Between(w.ns, w.u + 1, w.u + 2047)
    ensures var r := DrainFrom(s, free, s.last);
      Shows(r.s, out + r.out, WDrain(w, w.u))
  {
    InOrderIsConsecutive(s.buf, w.ns, w.u, w.u + 2047);
    var k := Consecutive(w.ns, w.u);
    var r := DrainFrom(s, free, s.last);
    UpConcat(out, r.out);
    UpAnnounce(s.buf[..k]);
    CarriesConcat(Up(out), w.up, s.buf[..k], w.ns[..k]);
  }

  lemma EmitRefines(s: Session, out: seq<Event>, w: Wide, e: Event, n: int)
    requires Shows(s, out, w) && !e.Released? && e.frame.seqNo == n % SEQ_SPACE
    ensures Shows(s, out + [e], w.(up := w.up + [n]))
  {
    UpConcat(out, [e]);
    assert Up([e]) == [e.frame] by { assert [e][1..] == []; }
    CarriesConcat(Up(out), w.up, [e.frame], [n]);
  }

  lemma DropRefines(s: Session, out: seq<Event>, w: Wide, f: Frame)
    requires Shows(s, out, w)
    ensures Shows(s, out + [Released(f)], w)
  {
    UpConcat(out, [Released(f)]);
  }

  lemma EnqueueRefines(s: Session, out: seq<Event>, w: Wide, free: nat, rx: Rx, n: int)
    requires Shows(s, out, w) && Ascending(w.ns) && Near(w.ns, n) && rx.frame.seqNo == n % SEQ_SPACE
    ensures var r := Enqueue(s, free, rx);
      Shows(r.s, out + r.out, WEnqueue(w, n, free > 0 && !rx.eap))
  {
    hide ReleaseUpTo, WRelease, Insert, Put, Duplicate;
    if free > 0 && !rx.eap {
      InsertIsPut(s.buf, w.ns, rx.frame, n);
      if n in w.ns {
        DropRefines(s, out, w, rx.frame);
      } else {
        assert out + [] == out;
      }
    } else {
      var r := ReleaseUpTo(s, if free > 0 then free - 1 else 0, n % SEQ_SPACE);
      ReleaseRefines(s, out, w, if free > 0 then free - 1 else 0, n);
      var w1 := WRelease(w, n);
      EmitRefines(r.s.(last := n % SEQ_SPACE), out + r.out, w1.(u := n), Indicate(rx), n);
      assert out + (r.out + [Indicate(rx)]) == out + r.out + [Indicate(rx)];
    }
  }

  /** The first half of Slide: what the moved window no longer covers goes up. */
  lemma UncoverRefines(s: Session, w: Wide, free: nat, n: int)
    requires Shows(s, [], w) && WTight(w) && w.up == [] && w.u + w.win < n < w.u + 2048
    ensures var r := ReleaseUpTo(s, free, WinStart(n % SEQ_SPACE, s.win));
      Shows(r.s.(last := WinStart(n % SEQ_SPACE, s.win)), r.out, WRelease(w, n - w.win).(u := n - w.win))
  {
    var x := n - w.win;
    ModAdd(n, 0 - w.win as int);
    assert WinStart(n % SEQ_SPACE, s.win) == x % SEQ_SPACE;
    NearOld(w, x);
    ReleaseRefines(s, [], w, free, x);
    hide ReleaseUpTo;
    assert [] + ReleaseUpTo(s, free, x % SEQ_SPACE).out == ReleaseUpTo(s, free, x % SEQ_SPACE).out;
  }

  lemma NearOld(w: Wide, x: int)
    requires WTight(w) && w.u < x < w.u + 2048
    ensures Near(w.ns, x)
  {
  }

  /** A frame that is not EAP gets a block when one is free; beyond the window, also when moving the
      window so that it ends at n frees one. */
  predicate GetsBlock(w: Wide, n: int, free: nat, eap: bool) {
    !eap && (free > 0 || (n > w.u + w.win && exists i :: 0 <= i < |w.ns| && w.ns[i] <= n - w.win))
  }

  lemma ReleaseFrees(s: Session, w: Wide, free: nat, x: int)
    requires Shows(s, [], w) && Ascending(w.ns) && Near(w.ns, x)
    ensures ReleaseUpTo(s, free, x % SEQ_SPACE).free > 0 <==>
      free > 0 || exists i :: 0 <= i < |w.ns| && w.ns[i] <= x
  {
    hide Up;
    UpToIsBelow(s.buf, w.ns, x);
    if i :| 0 <= i < |w.ns| && w.ns[i] <= x {
      assert w.ns[0] <= w.ns[i];
    }
  }

  lemma SlideRefines(s: Session, w: Wide, free: nat, rx: Rx, n: int) returns (stored: bool)
    requires Shows(s, [], w) && WTight(w) && w.up == [] && w.u + w.win < n < w.u + 2048
    requires rx.frame.seqNo == n % SEQ_SPACE
    ensures stored == GetsBlock(w, n, free, rx.eap)
    ensures var r := Slide(s, free, rx); Shows(r.s, r.out, WSlide(w, n, stored))
  {
    hide ReleaseUpTo, WRelease, WinStart, Carries, Ascending, Enqueue, WEnqueue, DrainFrom, WDrain, Up;
    var m := WinStart(n % SEQ_SPACE, s.win);
    UncoverRefines(s, w, free, n);
    BlockAfterMove(s, w, free, n);
    ReleaseOrders(w, n - w.win);
    var r1 := ReleaseUpTo(s, free, m);
    var w1 := WRelease(w, n - w.win).(u := n - w.win);
    var s1 := r1.s.(last := m);
    stored := r1.free > 0 && !rx.eap;
    NearBelow(w1.ns, w.u, n);
    EnqueueRefines(s1, r1.out, w1, r1.free, rx, n);
    EnqueuedInWindow(w1, n, stored);
    var r2 := Enqueue(s1, r1.free, rx);
    DrainRefines(r2.s, r1.out + r2.out, WEnqueue(w1, n, stored), r2.free);
  }

  lemma BlockAfterMove(s: Session, w: Wide, free: nat, n: int)
    requires Shows(s, [], w) && WTight(w) && w.u + w.win < n < w.u + 2048
    ensures ReleaseUpTo(s, free, WinStart(n % SEQ_SPACE, s.win)).free > 0 <==>
      free > 0 || exists i :: 0 <= i < |w.ns| && w.ns[i] <= n - w.win
  {
    ModAdd(n, 0 - w.win as int);
    NearOld(w, n - w.win);
    ReleaseFrees(s, w, free, n - w.win);
  }

  lemma ReleaseKeepsLast(s: Session, free: nat, x: SeqNo)
    ensures var r := ReleaseUpTo(s, free, x); r.s.last == s.last && r.s.win == s.win
  {
  }

  lemma NearBelow(ns: seq<int>, u: int, n: int)
    requires Between(ns, u, n) && n < u + 2048
    ensures Near(ns, n)
  {
  }

  lemma EnqueuedInWindow(w: Wide, n: int, stored: bool)
    requires Ascending(w.ns) && Between(w.ns, w.u + 1, n - 1) && w.u < n < w.u + 2047
    ensures var r := WEnqueue(w, n, stored); Ascending(r.ns) && Between(r.ns, r.u + 1, r.u + 2047)
  {
    if stored {
      PutLast(w.ns, n);
      AscendingAppend(w.ns, n);
    } else {
      ReleaseAll(w, n);
    }
  }

  /** The number a data frame stands for: the nearest to the position with its low bits. */
  function Nearest(u: int, x: SeqNo): (n: int)
    ensures n % SEQ_SPACE == x && u - 2048 <= n < u + 2048
  {
    u + (x - u + 2048) % SEQ_SPACE - 2048
  }

  /** The next number in turn. */
  lemma InTurnRefines(s: Session, w: Wide, free: nat, rx: Rx)
    requires Shows(s, [], w) && WTight(w) && w.up == [] && rx.frame.seqNo == (w.u + 1) % SEQ_SPACE
    ensures var r := Arrive(s, free, rx); Shows(r.s, r.out, WArrive(w, w.u + 1, true))
  {
    hide ReleaseUpTo, DrainFrom, Enqueue, Slide, WDrain, Carries, Ascending, SeqSmaller;
    var x := rx.frame.seqNo;
    var s1 := s.(last := x);
    var w1 := w.(u := w.u + 1);
    EmitRefines(s1, [], w1, Indicate(rx), w.u + 1);
    assert [] + [Indicate(rx)] == [Indicate(rx)];
    DrainRefines(s1, [Indicate(rx)], w1.(up := w.up + [w.u + 1]), free);
  }

  /** A data frame does to the 12-bit session what its number does to the wide one. */
  lemma ArriveRefines(s: Session, w: Wide, free: nat, rx: Rx) returns (stored: bool)
    requires Shows(s, [], w) && WTight(w) && w.up == []
    ensures var n := Nearest(w.u, rx.frame.seqNo); var r := Arrive(s, free, rx);
      && stored == GetsBlock(w, n, free, rx.eap)
      && Shows(r.s, r.out, WArrive(w, n, stored))
  {
    hide ReleaseUpTo, DrainFrom, Enqueue, Slide, WRelease, WDrain, WEnqueue, WSlide, SeqSmaller, SeqStepOne, Carries, Ascending;
    var n := Nearest(w.u, rx.frame.seqNo);
    stored := GetsBlock(w, n, free, rx.eap);
    CompareArrival(s, w, n);
    if n == w.u + 1 {
      InTurnRefines(s, w, free, rx);
    } else if n <= w.u {
      DropRefines(s, [], w, rx.frame);
      assert [] + [Released(rx.frame)] == [Released(rx.frame)];
    } else if n <= w.u + w.win {
      NearWindow(w, n);
      EnqueueRefines(s, [], w, free, rx, n);
      assert [] + Enqueue(s, free, rx).out == Enqueue(s, free, rx).out;
    } else {
      stored := SlideRefines(s, w, free, rx, n);
    }
  }

  lemma NearWindow(w: Wide, n: int)
    requires WTight(w) && w.u <= n <= w.u + w.win
    ensures Near(w.ns, n)
  {
  }

  /** The four tests on an arriving number, read on the wide numbers. */
  lemma CompareArrival(s: Session, w: Wide, n: int)
    requires s.last == w.u % SEQ_SPACE && s.win == w.win <= 255 && w.u - 2048 <= n < w.u + 2048
    ensures SeqStepOne(n % SEQ_SPACE, s.last) <==> n == w.u + 1
    ensures n % SEQ_SPACE == s.last <==> n == w.u
    ensures SeqSmaller(n % SEQ_SPACE, s.last) <==> n < w.u
    ensures n > w.u ==> (SeqSmaller(n % SEQ_SPACE, (s.last + s.win + 1) % SEQ_SPACE) <==> n <= w.u + w.win)
  {
    StepOneIsNext(n, w.u);
    SameIsEqual(n, w.u);
    SmallerIsLess(n, w.u);
    ModAdd(w.u, w.win + 1);
    if n > w.u {
      hide SeqSmaller;
      SmallerIsLess(n, w.u + w.win + 1);
      assert s.last + s.win + 1 == w.u % SEQ_SPACE + (w.win + 1);
    }
  }

  lemma ModAdd(a: int, k: int)
    ensures (a % SEQ_SPACE + k) % SEQ_SPACE == (a + k) % SEQ_SPACE
  {
  }

  /** The number a BlockAckReq stands for. Half a circle ahead still counts as ahead. */
  function NearestUp(u: int, x: SeqNo): (n: int)
    ensures n % SEQ_SPACE == x && u - 2048 < n <= u + 2048
  {
    u + (x - u + 2047) % SEQ_SPACE - 2047
  }

  lemma BarRefines(s: Session, w: Wide, free: nat, start: SeqNo)
    requires Shows(s, [], w) && WTight(w) && w.up == []
    ensures var r := Bar(s, free, start);
      Shows(r.s, r.out, WBar(w, NearestUp(w.u, start)))
  {
    hide ReleaseUpTo, WRelease;
    var n := NearestUp(w.u, start);
    SmallerIsLess(w.u, n);
    if n > w.u {
      ReleaseRefines(s, [], w, free, n);
      assert [] + ReleaseUpTo(s, free, start).out == ReleaseUpTo(s, free, start).out;
    }
  }

  lemma NudgeRefines(s: Session, w: Wide, free: nat, e: Expiry)
    requires Shows(s, [], w) && WTight(w) && w.up == [] && s.buf != [] && e.short && !(e.long && |s.buf| > 1)
    ensures var r := Flush(s, free, e); Shows(r.s, r.out, WNudge(w))
  {
    hide ReleaseUpTo, WRelease, Carries, Ascending, DrainFrom, WDrain, SeqSmaller, Up, Refresh;
    var x := (s.last + 1) % SEQ_SPACE;
    ModAdd(w.u, 1);
    NearOld(w, w.u + 1);
    ReleaseRefines(s, [], w, free, w.u + 1);
    ReleaseNone(w);
    var r1 := ReleaseUpTo(s, free, x);
    ReleaseKeepsLast(s, free, x);
    assert [] + r1.out == r1.out;
    DrainRefines(r1.s.(last := x), r1.out, w.(u := w.u + 1), r1.free);
  }

  lemma ReleaseNone(w: Wide)
    requires WTight(w) && w.up == []
    ensures WRelease(w, w.u + 1) == w
  {
    assert Below(w.ns, w.u + 1) == 0;
  }

  // ---------- how far a step can reach ----------

  ghost predicate WWithin(w: Wide, lo: int, hi: int) {
    Between(w.ns, lo, hi) && Between(w.up, lo, hi) && lo - 1 <= w.u <= hi
  }

  lemma BetweenConcat(a: seq<int>, b: seq<int>, lo: int, hi: int)
    requires Between(a, lo, hi) && Between(b, lo, hi)
    ensures Between(a + b, lo, hi)
  {
  }

  lemma DrainWithin(w: Wide, lo: int, hi: int)
    requires WWithin(w, lo, hi)
    ensures WWithin(WDrain(w, w.u), lo, hi)
  {
    BetweenConcat(w.up, w.ns[..Consecutive(w.ns, w.u)], lo, hi);
  }

  lemma ReleaseWithin(w: Wide, x: int, lo: int, hi: int)
    requires WWithin(w, lo, hi)
    ensures WWithin(WRelease(w, x), lo, hi)
  {
    BetweenConcat(w.up, w.ns[..Below(w.ns, x)], lo, hi);
  }

  lemma EnqueueWithin(w: Wide, n: int, stored: bool, lo: int, hi: int)
    requires WWithin(w, lo, hi) && lo <= n <= hi
    ensures WWithin(WEnqueue(w, n, stored), lo, hi)
  {
    hide WRelease;
    ReleaseWithin(w, n, lo, hi);
    BetweenConcat(WRelease(w, n).up, [n], lo, hi);
    BetweenConcat(w.ns[..Before(w.ns, n)], [n], lo, hi);
    BetweenConcat(w.ns[..Before(w.ns, n)] + [n], w.ns[Before(w.ns, n)..], lo, hi);
  }

  lemma ArriveWithin(w: Wide, n: int, stored: bool)
    requires WTight(w) && w.up == [] && n <= w.u + 2048
    ensures WWithin(WArrive(w, n, stored), w.u + 1, w.u + 2048)
  {
    hide WDrain, WRelease, WEnqueue;
    var lo, hi := w.u + 1, w.u + 2048;
    if n == w.u + 1 {
      DrainWithin(w.(u := n, up := w.up + [n]), lo, hi);
    } else if w.u < n <= w.u + w.win {
      EnqueueWithin(w, n, stored, lo, hi);
    } else if n > w.u {
      var x := n - w.win;
      ReleaseWithin(w, x, lo, hi);
      EnqueueWithin(WRelease(w, x).(u := x), n, stored, lo, hi);
      DrainWithin(WEnqueue(WRelease(w, x).(u := x), n, stored), lo, hi);
    }
  }

  /** What still waits after a step lies ahead of the new position, even after an unclean one. */
  lemma ArriveAhead(w: Wide, n: int, stored: bool)
    requires WTight(w) && w.up == [] && n < w.u + 2048
    ensures var r := WArrive(w, n, stored); Between(r.ns, r.u, w.u + 2048)
  {
    hide WDrain, WRelease, WSlide, Put;
    ArriveWithin(w, n, stored);
    ArriveIsFine(w, n, stored);
    if !WCleanData(w, n, stored) {
      ReleaseOrders(w, n);
    }
  }

  lemma BarWithin(w: Wide, n: int)
    requires WTight(w) && w.up == [] && n <= w.u + 2048
    ensures var r := WBar(w, n); r.win == w.win && WWithin(r, w.u + 1, w.u + 2048) && Between(r.ns, r.u, w.u + 2048)
  {
    hide WRelease;
    if n > w.u {
      ReleaseWithin(w, n, w.u + 1, w.u + 2048);
      ReleaseOrders(w, n);
    }
  }

  lemma NudgeWithin(w: Wide)
    requires WTight(w) && w.up == []
    ensures WWithin(WNudge(w), w.u + 1, w.u + 2048)
  {
    hide WDrain, WRelease, Ascending;
    ReleaseNone(w);
    DrainWithin(w.(u := w.u + 1), w.u + 1, w.u + 2048);
  }
}
