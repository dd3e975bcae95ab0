/** The recipient entries, their reorder lists and the block pool they share, updated in place.
    Every method is proved to do to its session what the step function of ReorderSpec says,
    to leave the other sessions alone and to keep every block in exactly one place. */
module ReorderEngine {
  import opened ReorderSpec
  import opened BlockList

  const POOL: int := -1
  const OUT: int := -2

  /** The reordering half of a recipient table entry. */
  class RecEntry {
    var lastIndSeq: nat
    var winSize: nat
    var rcvSeq: nat
    var dropped: nat
    const list: List

    constructor (l: List)
      ensures list == l && lastIndSeq == 0 && winSize == 0
    {
      list := l;
      lastIndSeq, winSize, rcvSeq, dropped := 0, 0, 0, 0;
    }

    ghost function Value(): Session
      reads this, list
    {
      Session(lastIndSeq, winSize, list.frames)
    }
  }

  /** Blocks in the lists of these sessions. */
  function Buffered(ss: seq<Session>): nat {
    if ss == [] then 0 else |ss[0].buf| + Buffered(ss[1..])
  }

  lemma {:induction false} BufferedUpdate(ss: seq<Session>, i: nat, s: Session)
    requires i < |ss|
    ensures Buffered(ss[i := s]) == Buffered(ss) - |ss[i].buf| + |s.buf|
  {
    if i == 0 {
      assert ss[0 := s][1..] == ss[1..];
    } else {
      assert ss[i := s][1..] == ss[1..][i - 1 := s];
      BufferedUpdate(ss[1..], i - 1, s);
    }
  }

  lemma {:induction false} BufferedEmpty(ss: seq<Session>)
    requires forall i :: 0 <= i < |ss| ==> ss[i].buf == []
    ensures Buffered(ss) == 0
  {
    if ss != [] {
      BufferedEmpty(ss[1..]);
    }
  }

  class Engine {
    const freelist: List
    const entries: seq<RecEntry>
    var log: seq<Event>
    ghost const blocks: set<Block>
    ghost var taken: set<Block>
    ghost const Repr: set<object>

    /** Every block of list l is one of ours and calls h its home. */
    ghost predicate Owns(l: List, h: int)
      reads this, l, l.footprint
    {
      forall n :: n in l.footprint ==> n in blocks && n.home == h
    }

    /** Structure: what lies where. */
    ghost predicate Shape()
      reads this, Repr
    {
      && this in Repr && freelist in Repr && blocks <= Repr
      && (forall i {:trigger entries[i]} :: 0 <= i < |entries| ==>
            entries[i] in Repr && entries[i].list in Repr && entries[i].list != freelist)
      && freelist.footprint <= Repr
      && (forall i {:trigger entries[i]} :: 0 <= i < |entries| ==> entries[i].list.footprint <= Repr)
      && Owns(freelist, POOL)
      && (forall n :: n in taken ==> n in blocks && n.home == OUT)
      && (forall i {:trigger entries[i]} :: 0 <= i < |entries| ==> Owns(entries[i].list, i))
      && (forall i, j :: 0 <= i < j < |entries| ==> entries[i] != entries[j] && entries[i].list != entries[j].list)
    }

    ghost predicate Valid()
      reads this, Repr
      ensures Valid() ==> Shape()
    {
      && Shape()
      && freelist.Valid()
      && (forall i {:trigger entries[i]} :: 0 <= i < |entries| ==> entries[i].list.Valid() && WellFormed(entries[i].Value()))
    }

    ghost function Sess(i: nat): Session
      reads this, Repr
      requires Shape() && i < |entries|
    {
      entries[i].Value()
    }

    ghost function Free(): nat
      reads this, Repr
      requires Shape()
    {
      |freelist.frames|
    }

    /** Blocks free, out, or in the list of session i. */
    ghost function Held(i: nat): nat
      reads this, Repr
      requires Shape() && i < |entries|
    {
      Free() + |taken| + |Sess(i).buf|
    }

    ghost function Sessions(): (ss: seq<Session>)
      reads this, Repr
      requires Shape()
      ensures |ss| == |entries| && forall i :: 0 <= i < |ss| ==> ss[i] == Sess(i)
    {
      seq(|entries|, i requires 0 <= i < |entries| reads this, Repr requires Shape() => Sess(i))
    }

    /** The pool is whole: free blocks, blocks taken out and blocks in the lists are all there are. */
    ghost predicate Whole()
      reads this, Repr
      requires Shape()
    {
      Free() + |taken| + Buffered(Sessions()) == |blocks|
    }

    /** Session i moved as r says; nothing else did. */
    twostate predicate Did(i: nat, r: Result)
      reads this, Repr
      requires old(Valid()) && i < |entries|
    {
      && Valid()
      && Sess(i) == r.s
      && Free() == r.free
      && log == old(log) + r.out
      && (forall j {:trigger Sess(j)} :: 0 <= j < |entries| && j != i ==> Sess(j) == old(Sess(j)))
    }

    /** A free list of num fresh blocks. */
    static method BuildPool(num: nat) returns (fl: List, ghost all: set<Block>)
      ensures fresh(fl) && fl.Valid() && |fl.frames| == num == |all| && fl.footprint == all
      ensures forall b :: b in all ==> fresh(b) && b.home == POOL
    {
      hide List.Valid;
      fl := new List();
      all := {};
      for k := 0 to num
        invariant fresh(fl) && fl.Valid() && |fl.frames| == k == |all| && fl.footprint == all
        invariant forall b :: b in all ==> fresh(b) && b.home == POOL
      {
        var b := new Block();
        b.home := POOL;
        fl.Enqueue(b);
        all := all + {b};
      }
    }

    /** size fresh entries with empty lists. */
    static method BuildEntries(size: nat) returns (es: seq<RecEntry>, ghost repr: set<object>)
      ensures |es| == size && fresh(repr)
      ensures forall i :: 0 <= i < size ==>
        es[i] in repr && es[i].list in repr && es[i].list.Valid() && es[i].list.footprint == {} && es[i].Value() == Session(0, 0, [])
      ensures forall i, j :: 0 <= i < j < size ==> es[i] != es[j] && es[i].list != es[j].list
      ensures forall o :: o in repr ==> o is RecEntry || o is List
    {
      hide List.Valid;
      es, repr := [], {};
      for k := 0 to size
        invariant |es| == k && fresh(repr)
        invariant forall i :: 0 <= i < k ==>
          es[i] in repr && es[i].list in repr && es[i].list.Valid() && es[i].list.footprint == {} && es[i].Value() == Session(0, 0, [])
        invariant forall i, j :: 0 <= i < j < k ==> es[i] != es[j] && es[i].list != es[j].list
        invariant forall o :: o in repr ==> o is RecEntry || o is List
      {
        var l := new List();
        var e := new RecEntry(l);
        es := es + [e];
        repr := repr + {l, e};
      }
    }

    /** An empty table of entries over a pool of num fresh blocks. */
    constructor (num: nat, tableSize: nat)
      ensures Valid() && fresh(Repr)
      ensures |entries| == tableSize && |blocks| == num && Free() == num
      ensures forall i {:trigger Sess(i)} :: 0 <= i < tableSize ==> Sess(i) == Session(0, 0, [])
      ensures log == [] && taken == {} && Whole()
    {
      hide List.Valid, Valid, Shape, Whole;
      var fl, all := BuildPool(num);
      var es, repr := BuildEntries(tableSize);
      freelist := fl;
      entries := es;
      blocks := all;
      Repr := {this, fl} + all + repr;
      taken := {};
      log := [];
      new;
      FreshIsValid();
      StartsWhole();
    }

    lemma FreshIsValid()
      requires this in Repr && freelist in Repr && blocks <= Repr && taken == {}
      requires freelist.Valid() && freelist.footprint == blocks && |freelist.frames| == |blocks|
      requires forall b :: b in blocks ==> b.home == POOL
      requires forall i {:trigger entries[i]} :: 0 <= i < |entries| ==>
        entries[i] in Repr && entries[i].list in Repr && entries[i].list.Valid() && entries[i].list.footprint == {} && entries[i].Value() == Session(0, 0, [])
      requires forall i {:trigger entries[i]} :: 0 <= i < |entries| ==> entries[i].list != freelist
      requires forall i, j :: 0 <= i < j < |entries| ==> entries[i] != entries[j] && entries[i].list != entries[j].list
      ensures Valid() && Free() == |blocks|
      ensures forall i {:trigger Sess(i)} :: 0 <= i < |entries| ==> Sess(i) == Session(0, 0, [])
    {
      hide List.Valid, RecEntry.Value;
    }

    lemma StartsWhole()
      requires Valid() && taken == {} && Free() == |blocks|
      requires forall i {:trigger Sess(i)} :: 0 <= i < |entries| ==> Sess(i).buf == []
      ensures Whole()
    {
      hide Valid, Shape;
      BufferedEmpty(Sessions());
    }

    // ---------- block traffic ----------

    /** Take a block off the pool, if there is one. */
    method Alloc() returns (b: Block?)
      requires Valid()
      modifies Repr
      ensures Valid() && log == old(log)
      ensures forall j {:trigger Sess(j)} :: 0 <= j < |entries| ==> Sess(j) == old(Sess(j))
      ensures old(Free()) == 0 ==> b == null && Free() == 0 && taken == old(taken)
      ensures old(Free()) > 0 ==> b != null && b !in old(taken) && taken == old(taken) + {b} && Free() == old(Free()) - 1
    {
      hide List.Valid;
      freelist.Head();
      b := freelist.Dequeue();
      if b != null {
        b.home := OUT;
        taken := taken + {b};
      }
    }

    /** Give a taken block back to the pool. */
    method Release(b: Block)
      requires Valid() && b in taken
      modifies Repr
      ensures Valid() && log == old(log)
      ensures forall j {:trigger Sess(j)} :: 0 <= j < |entries| ==> Sess(j) == old(Sess(j))
      ensures taken == old(taken) - {b} && Free() == old(Free()) + 1
    {
      hide List.Valid;
      b.home := POOL;
      taken := taken - {b};
      freelist.Enqueue(b);
    }

    /** Take the head block off the list of session i. */
    method TakeHead(i: nat) returns (b: Block)
      requires Valid() && i < |entries| && Sess(i).buf != []
      modifies Repr
      ensures Did(i, old(Result(Sess(i).(buf := Sess(i).buf[1..]), Free(), [])))
      ensures b !in old(taken) && taken == old(taken) + {b} && b.frame == old(Sess(i)).buf[0]
    {
      hide List.Valid;
      entries[i].list.Head();
      b := entries[i].list.Dequeue();
      b.home := OUT;
      taken := taken + {b};
      assert log == old(log) + [];
    }

    /** Write a frame into a taken block. */
    method FillBlock(b: Block, f: Frame)
      requires Valid() && b in taken
      modifies Repr
      ensures Valid() && log == old(log) && Free() == old(Free()) && taken == old(taken) && b.frame == f
      ensures forall j {:trigger Sess(j)} :: 0 <= j < |entries| ==> Sess(j) == old(Sess(j))
    {
      hide List.Valid;
      b.frame := f;
    }

    /** Link a taken block into the list of session i by sequence number. */
    method LinkBlock(i: nat, b: Block) returns (ok: bool)
      requires Valid() && i < |entries| && b in taken
      modifies Repr
      ensures ok == !Duplicate(old(Sess(i)).buf, old(b.frame).seqNo)
      ensures Valid() && log == old(log) && Free() == old(Free())
      ensures Sess(i) == old(Sess(i)).(buf := if ok then Insert(old(Sess(i)).buf, old(b.frame)) else old(Sess(i)).buf)
      ensures forall j {:trigger Sess(j)} :: 0 <= j < |entries| && j != i ==> Sess(j) == old(Sess(j))
      ensures taken == if ok then old(taken) - {b} else old(taken)
    {
      hide List.Valid, Insert, Duplicate, Position;
      ok := Relink(i, b);
      if ok {
        b.home := i;
        taken := taken - {b};
      }
    }

    /** The list half of LinkBlock: nothing but links move. */
    method Relink(i: nat, b: Block) returns (ok: bool)
      requires Valid() && i < |entries| && b in taken
      modifies entries[i].list, entries[i].list.footprint`next, b`next
      ensures freelist.Valid()
      ensures forall j {:trigger entries[j]} :: 0 <= j < |entries| ==> entries[j].list.Valid()
      ensures ok == !Duplicate(old(Sess(i)).buf, b.frame.seqNo)
      ensures entries[i].list.footprint == if ok then old(entries[i].list.footprint) + {b} else old(entries[i].list.footprint)
      ensures entries[i].list.frames == if ok then Insert(old(Sess(i)).buf, b.frame) else old(Sess(i)).buf
    {
      hide List.Valid, Insert, Duplicate, Position;
      var l := entries[i].list;
      assert forall j, n :: 0 <= j < |entries| && j != i && n in entries[j].list.footprint ==> n !in l.footprint;
      ok := l.InsertSorted(b);
    }

    /** Look at the head block of session i. */
    method Probe(i: nat) returns (b: Block?)
      requires Valid() && i < |entries|
      ensures if Sess(i).buf == [] then b == null else b != null && b.frame == Sess(i).buf[0]
    {
      entries[i].list.Head();
      b := entries[i].list.next;
    }

    method SetLast(i: nat, last: nat)
      requires Valid() && i < |entries| && (last <= MAXSEQ || last == RESET_RCV_SEQ)
      modifies Repr
      ensures Did(i, old(Result(Sess(i).(last := last), Free(), [])))
      ensures taken == old(taken)
    {
      hide List.Valid;
      entries[i].lastIndSeq := last;
      assert log == old(log) + [];
    }

    method Emit(e: Event)
      requires Valid()
      modifies Repr
      ensures Valid() && log == old(log) + [e] && Free() == old(Free()) && taken == old(taken)
      ensures forall j {:trigger Sess(j)} :: 0 <= j < |entries| ==> Sess(j) == old(Sess(j))
      ensures old(Whole()) ==> Whole()
    {
      hide List.Valid;
      log := log + [e];
      assert Sessions() == old(Sessions());
    }

    /** Dequeue the head frame, hand it up, give its block back. */
    method AnnounceHead(i: nat) returns (f: Frame)
      requires Valid() && i < |entries| && Sess(i).buf != []
      modifies Repr
      ensures f == old(Sess(i)).buf[0]
      ensures Did(i, old(Result(Sess(i).(buf := Sess(i).buf[1..]), Free() + 1, [Announced(Sess(i).buf[0])])))
      ensures taken == old(taken)
    {
      hide Valid, Shape;
      var b := TakeHead(i);
      f := b.frame;
      Emit(Announced(f));
      Release(b);
    }

    // ---------- draining loops ----------

    method IndicateInOrder(i: nat, start: nat) returns (last: nat)
      requires Valid() && i < |entries|
      modifies Repr
      ensures var n := InOrder(old(Sess(i)).buf, start);
        && Did(i, old(Result(Sess(i).(buf := Sess(i).buf[n..]), Free() + n, Announce(Sess(i).buf[..n]))))
        && last == (if n == 0 then RESET_RCV_SEQ else old(Sess(i)).buf[n - 1].seqNo)
      ensures taken == old(taken)
    {
      hide Valid, Shape;
      ghost var buf := Sess(i).buf;
      ghost var k := 0;
      var at := start;
      last := RESET_RCV_SEQ;
      assert log == old(log) + Announce(buf[..0]);
      while true
        invariant k <= |buf|
        invariant Did(i, old(Result(Sess(i).(buf := Sess(i).buf[k..]), Free() + k, Announce(Sess(i).buf[..k]))))
        invariant InOrder(buf, start) == k + InOrder(buf[k..], at)
        invariant if k == 0 then at == start && last == RESET_RCV_SEQ else at == last == buf[k - 1].seqNo
        invariant taken == old(taken)
        decreases |buf| - k
      {
        var b := Probe(i);
        if b == null || !SeqStepOne(b.frame.seqNo, at) {
          break;
        }
        var f := AnnounceHead(i);
        at := f.seqNo;
        last := at;
        assert buf[k..][1..] == buf[k + 1..];
        assert Announce(buf[..k]) + [Announced(f)] == Announce(buf[..k + 1]);
        k := k + 1;
      }
    }

    method IndicateUpTo(i: nat, x: SeqNo)
      requires Valid() && i < |entries|
      modifies Repr
      ensures Did(i, old(ReleaseUpTo(Sess(i), Free(), x)))
      ensures taken == old(taken)
    {
      hide Valid, Shape;
      ghost var buf := Sess(i).buf;
      ghost var k := 0;
      assert log == old(log) + Announce(buf[..0]);
      while true
        invariant k <= |buf|
        invariant Did(i, old(Result(Sess(i).(buf := Sess(i).buf[k..]), Free() + k, Announce(Sess(i).buf[..k]))))
        invariant UpTo(buf, x) == k + UpTo(buf[k..], x)
        invariant taken == old(taken)
        decreases |buf| - k
      {
        var b := Probe(i);
        if b == null || !(b.frame.seqNo == x || SeqSmaller(b.frame.seqNo, x)) {
          break;
        }
        var f := AnnounceHead(i);
        assert buf[k..][1..] == buf[k + 1..];
        assert Announce(buf[..k]) + [Announced(f)] == Announce(buf[..k + 1]);
        k := k + 1;
      }
    }

    method RefreshSession(i: nat)
      requires Valid() && i < |entries|
      modifies Repr
      ensures Did(i, old(Refresh(Sess(i), Free())))
      ensures taken == old(taken)
    {
      hide Valid, Shape;
      ghost var buf := Sess(i).buf;
      ghost var k, at := 0, Sess(i).last;
      assert log == old(log) + Announce(buf[..0]);
      while true
        invariant k <= |buf|
        invariant Did(i, old(Result(Sess(i).(last := at, buf := Sess(i).buf[k..]), Free() + k, Announce(Sess(i).buf[..k]))))
        invariant taken == old(taken)
        decreases |buf| - k
      {
        var b := Probe(i);
        if b == null {
          break;
        }
        var f := AnnounceHead(i);
        SetLast(i, f.seqNo);
        at := f.seqNo;
        assert Announce(buf[..k]) + [Announced(f)] == Announce(buf[..k + 1]);
        k := k + 1;
      }
      assert buf[..k] == buf;
      SetLast(i, RESET_RCV_SEQ);
    }

    /** Announce what directly follows start and move the session there. */
    method CatchUp(i: nat, start: nat)
      requires Valid() && i < |entries|
      modifies Repr
      ensures Did(i, old(DrainFrom(Sess(i), Free(), start)))
      ensures taken == old(taken)
    {
      hide Valid, Shape;
      var last := IndicateInOrder(i, start);
      if last != RESET_RCV_SEQ {
        SetLast(i, last);
      }
    }

    // ---------- entry points of one session ----------

    method FlushTimeout(i: nat, e: Expiry)
      requires Valid() && i < |entries|
      modifies Repr
      ensures Did(i, old(Flush(Sess(i), Free(), e)))
      ensures taken == old(taken)
      ensures old(Whole()) ==> Whole()
    {
      hide Valid, Shape, ReleaseUpTo, DrainFrom, Refresh;
      var n := Pending(i);
      assert log == old(log) + [];
      if n == 0 {
        if old(Whole()) { WholeKept(i); }
        return;
      }
      if e.long && n > 1 {
        RefreshSession(i);
      } else if e.short {
        var x := (entries[i].lastIndSeq + 1) % SEQ_SPACE;
        IndicateUpTo(i, x);
        ghost var r1 := old(ReleaseUpTo(Sess(i), Free(), x));
        SetLast(i, x);
        CatchUp(i, x);
        assert old(log) + r1.out + DrainFrom(r1.s.(last := x), r1.free, x).out == old(log) + (r1.out + DrainFrom(r1.s.(last := x), r1.free, x).out);
      }
      if old(Whole()) { WholeKept(i); }
    }

    /** list.qlen */
    method Pending(i: nat) returns (n: nat)
      requires Valid() && i < |entries|
      ensures n == |Sess(i).buf|
    {
      n := entries[i].list.qlen;
    }

    method EnqueuePacket(i: nat, rx: Rx)
      requires Valid() && i < |entries|
      modifies Repr
      ensures Did(i, old(Enqueue(Sess(i), Free(), rx)))
      ensures old(taken) <= taken && Held(i) == old(Held(i))
      ensures !rx.eap ==> taken == old(taken)
    {
      hide Valid, Shape, ReleaseUpTo, Insert, Duplicate, Indicate;
      var b := Alloc();
      if b != null && !rx.eap {
        FillBlock(b, rx.frame);
        var ok := LinkBlock(i, b);
        if !ok {
          Emit(Released(rx.frame));
          Release(b);
        }
      } else {
        IndicateUpTo(i, rx.frame.seqNo);
        SetLast(i, rx.frame.seqNo);
        Emit(Indicate(rx));
      }
    }

    /** A data frame for session i, from the timeout flush on. */
    method Arrival(i: nat, rx: Rx, e: Expiry)
      requires Valid() && i < |entries|
      modifies Repr
      ensures Did(i, old(var r := Flush(Sess(i), Free(), e); Then(r, Arrive(r.s, r.free, rx))))
      ensures old(taken) <= taken && Held(i) == old(Held(i))
      ensures |taken| == |old(taken)| + old(var r := Flush(Sess(i), Free(), e); Lost(r.s, r.free, rx))
      ensures old(var r := Flush(Sess(i), Free(), e); Lost(r.s, r.free, rx)) == 0 ==> taken == old(taken)
      ensures old(Whole()) ==> Whole()
    {
      hide Valid, Shape, Flush, Arrive, Lost;
      FlushTimeout(i, e);
      label Flushed:
      Settle(i, rx);
      assert old(log) + old@Flushed(log)[|old(log)|..] == old@Flushed(log);
      if |taken| == |old(taken)| { SubsetIsAll(old(taken), taken); }
      if old(Whole()) { WholeKept(i); }
    }

    /** Drop an old or repeated frame. */
    method Drop(i: nat, f: Frame)
      requires Valid() && i < |entries|
      modifies Repr
      ensures Did(i, old(Result(Sess(i), Free(), [Released(f)])))
      ensures taken == old(taken) && entries[i].dropped == old(entries[i].dropped) + 1
    {
      hide List.Valid;
      entries[i].dropped := entries[i].dropped + 1;
      log := log + [Released(f)];
    }

    /** The frame lies beyond the window: move the window so that it is the last number in it. */
    method SlideTo(i: nat, rx: Rx)
      requires Valid() && i < |entries|
      modifies Repr
      ensures Did(i, old(Slide(Sess(i), Free(), rx)))
      ensures old(taken) <= taken && Held(i) == old(Held(i))
      ensures !rx.eap ==> taken == old(taken)
    {
      hide Valid, Shape, ReleaseUpTo, DrainFrom, Enqueue;
      var tmpSeq: int := rx.frame.seqNo - entries[i].winSize - 1;
      if tmpSeq < 0 {
        tmpSeq := MAXSEQ + 1 + tmpSeq;
      }
      var winStartSeq := (tmpSeq + 1) % SEQ_SPACE;
      IndicateUpTo(i, winStartSeq);
      SetLast(i, winStartSeq);
      label Moved:
      EnqueuePacket(i, rx);
      label Queued:
      CatchUp(i, entries[i].lastIndSeq);
      ghost var r1 := old(ReleaseUpTo(Sess(i), Free(), winStartSeq));
      ghost var r2 := Enqueue(r1.s.(last := winStartSeq), r1.free, rx);
      ghost var r3 := DrainFrom(r2.s, r2.free, r2.s.last);
      assert old(log) + r1.out + r2.out + r3.out == old(log) + (r1.out + r2.out + r3.out);
    }

    /** A data frame meets session i after the flush. */
    method Settle(i: nat, rx: Rx)
      requires Valid() && i < |entries|
      modifies Repr
      ensures Did(i, old(Arrive(Sess(i), Free(), rx)))
      ensures old(taken) <= taken && Held(i) == old(Held(i))
      ensures !rx.eap ==> taken == old(taken)
    {
      hide Valid, Shape, ReleaseUpTo, DrainFrom, Enqueue;
      var x := rx.frame.seqNo;
      var last, win := entries[i].lastIndSeq, entries[i].winSize;
      if last == RESET_RCV_SEQ {
        SetLast(i, x);
        Emit(Indicate(rx));
      } else if SeqStepOne(x, last) {
        SetLast(i, x);
        Emit(Indicate(rx));
        CatchUp(i, x);
      } else if x == last || SeqSmaller(x, last) {
        Drop(i, rx.frame);
      } else if SeqSmaller(x, (last + win + 1) % SEQ_SPACE) {
        EnqueuePacket(i, rx);
      } else {
        SlideTo(i, rx);
      }
    }

    /** A BlockAckReq for session i. */
    method BlockAckReq(i: nat, start: SeqNo)
      requires Valid() && i < |entries|
      modifies Repr
      ensures Did(i, old(Bar(Sess(i), Free(), start)))
      ensures taken == old(taken)
      ensures old(Whole()) ==> Whole()
    {
      hide Valid, Shape, ReleaseUpTo;
      assert log == old(log) + [];
      if SeqSmaller(entries[i].lastIndSeq, start) {
        IndicateUpTo(i, start);
        SetLast(i, if start == 0 then MAXSEQ else start - 1);
      }
      if old(Whole()) { WholeKept(i); }
    }

    /** The idle timer of session i; expired is what the clock says. */
    method IdleTimeout(i: nat, expired: bool)
      requires Valid() && i < |entries|
      modifies Repr
      ensures Did(i, old(Idle(Sess(i), Free(), expired)))
      ensures taken == old(taken)
      ensures old(Whole()) ==> Whole()
    {
      hide Valid, Shape, Refresh;
      assert log == old(log) + [];
      if expired {
        RefreshSession(i);
      }
      if old(Whole()) { WholeKept(i); }
    }

    /** Give session i a window size; it starts without a position. */
    method SetWindow(i: nat, win: nat)
      requires Valid() && i < |entries| && win <= 255
      modifies Repr
      ensures Did(i, old(Result(Sess(i).(last := RESET_RCV_SEQ, win := win), Free(), [])))
      ensures taken == old(taken)
    {
      hide List.Valid;
      entries[i].winSize := win;
      entries[i].lastIndSeq := RESET_RCV_SEQ;
      assert log == old(log) + [];
    }

    /** The driver is unloading: every frame still waiting in session i is released. */
    method ReleasePending(i: nat)
      requires Valid() && i < |entries|
      modifies Repr
      ensures Did(i, old(Unload(Sess(i), Free())))
      ensures taken == old(taken)
      ensures old(Whole()) ==> Whole()
    {
      hide Valid, Shape;
      ghost var buf := Sess(i).buf;
      ghost var k := 0;
      assert log == old(log) + Discard(buf[..0]);
      while true
        invariant k <= |buf|
        invariant Did(i, old(Result(Sess(i).(buf := Sess(i).buf[k..]), Free() + k, Discard(Sess(i).buf[..k]))))
        invariant taken == old(taken)
        decreases |buf| - k
      {
        var b := Probe(i);
        if b == null {
          break;
        }
        b := TakeHead(i);
        Emit(Released(b.frame));
        Release(b);
        assert buf[k..][1..] == buf[k + 1..];
        assert Discard(buf[..k]) + [Released(buf[k])] == Discard(buf[..k + 1]);
        k := k + 1;
      }
      assert buf[..k] == buf;
      if old(Whole()) { WholeKept(i); }
    }

    /** (Re)open session i: flush what a session already in use still holds, then set the window. */
    method Open(i: nat, win: nat, inUse: bool)
      requires Valid() && i < |entries| && 1 <= win <= 255 && (!inUse ==> Sess(i).buf == [])
      modifies Repr
      ensures Did(i, old(Reopen(Sess(i), Free(), win)))
      ensures taken == old(taken)
      ensures old(Whole()) ==> Whole()
    {
      hide Valid, Shape;
      if inUse {
        RefreshSession(i);
      }
      SetWindow(i, win);
      assert Announce([]) == [];
      if old(Whole()) { WholeKept(i); }
    }

    /** Close session i: flush what it holds, no position, no window. */
    method Close(i: nat)
      requires Valid() && i < |entries|
      modifies Repr
      ensures Did(i, old(Reopen(Sess(i), Free(), 0)))
      ensures taken == old(taken)
      ensures old(Whole()) ==> Whole()
    {
      hide Valid, Shape;
      RefreshSession(i);
      SetWindow(i, 0);
      if old(Whole()) { WholeKept(i); }
    }

    // ---------- the pool stays whole ----------

    /** A step that keeps what its own session, the pool and the takers hold between them keeps
        the whole pool. */
    twostate lemma WholeKept(i: nat)
      requires old(Valid()) && Valid() && i < |entries| && old(Whole())
      requires forall j {:trigger Sess(j)} :: 0 <= j < |entries| && j != i ==> Sess(j) == old(Sess(j))
      requires Held(i) == old(Held(i))
      ensures Whole()
    {
      hide Valid, Shape;
      assert Sessions() == old(Sessions())[i := Sess(i)];
      BufferedUpdate(old(Sessions()), i, Sess(i));
    }

    ghost function ListBlocks(k: nat): (bs: set<Block>)
      reads this, Repr
      requires Shape() && k <= |entries|
      ensures forall b :: b in bs ==> b in blocks && 0 <= b.home < k
    {
      if k == 0 then {} else ListBlocks(k - 1) + entries[k - 1].list.footprint
    }

    lemma {:induction false} ListBlocksSize(k: nat)
      requires Valid() && k <= |entries|
      ensures |ListBlocks(k)| == Buffered(Sessions()[..k])
    {
      hide Buffered, List.Valid;
      if k == 0 {
        assert Buffered([]) == 0 by { BufferedEmpty([]); }
      } else {
        ListBlocksSize(k - 1);
        BufferedSnoc(Sessions(), k - 1);
        var l := entries[k - 1].list;
        l.FootprintSize();
        assert Owns(l, k - 1);
        DisjointSize(ListBlocks(k - 1), l.footprint);
      }
    }

    /** In a whole pool every block is free, taken out, or in some session's list; which one is
        settled by its home, so it is in one place only. */
    lemma WholeMeansAccounted(b: Block)
      requires Valid() && Whole() && b in blocks
      ensures
        || (b in freelist.footprint && b.home == POOL)
        || (b in taken && b.home == OUT)
        || (b in ListBlocks(|entries|) && 0 <= b.home < |entries|)
    {
      hide List.Valid;
      var n := |entries|;
      ListBlocksSize(n);
      assert Sessions()[..n] == Sessions();
      freelist.FootprintSize();
      var free := freelist.footprint;
      DisjointSize(free, taken);
      DisjointSize(free + taken, ListBlocks(n));
      SubsetIsAll(free + taken + ListBlocks(n), blocks);
    }
  }

  lemma {:induction false} BufferedSnoc(ss: seq<Session>, k: nat)
    requires k < |ss|
    ensures Buffered(ss[..k + 1]) == Buffered(ss[..k]) + |ss[k].buf|
  {
    if k == 0 {
      assert ss[..1][1..] == [];
    } else {
      assert ss[..k + 1][1..] == ss[1..][..k] && ss[..k][1..] == ss[1..][..k - 1];
      BufferedSnoc(ss[1..], k - 1);
    }
  }

  lemma DisjointSize(a: set<Block>, b: set<Block>)
    requires forall x :: x in a ==> x !in b
    ensures |a + b| == |a| + |b|
  {
    assert a * b == {};
  }

  lemma SubsetIsAll(a: set<Block>, b: set<Block>)
    requires a <= b && |a| == |b|
    ensures a == b
  {
    if a != b {
      var x :| x in b && x !in a;
      assert a <= b - {x};
      SubsetSize(a, b - {x});
    }
  }

  lemma {:induction false} SubsetSize(a: set<Block>, b: set<Block>)
    requires a <= b
    ensures |a| <= |b|
    decreases a
  {
    if a != {} {
      var x :| x in a;
      SubsetSize(a - {x}, b - {x});
    }
  }
}
