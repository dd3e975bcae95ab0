/** The software transmit queues and the loop that empties them in batches. */
module TxQueue {
  import opened Sequences

  const RX_BUFFER_AGGRESIZE: nat := 3840
  const NUM_OF_TX_RING: nat := 4

  datatype FrameType = TX_MCAST_FRAME | TX_LEGACY_FRAME | TX_AMSDU_FRAME | TX_RALINK_FRAME | TX_FRAG_FRAME

  class Packet {
    const len: nat
    /** To the broadcast station. */
    const mcast: bool
    /** DHCP, EAPOL or WAI. */
    const special: bool
    var next: Packet?

    constructor (len: nat, mcast: bool, special: bool)
      ensures this.len == len && this.mcast == mcast && this.special == special && next == null
    {
      this.len, this.mcast, this.special, next := len, mcast, special, null;
    }
  }

  class Queue {
    var head: Packet?
    var tail: Packet?
    var number: nat
    ghost var packets: seq<Packet>

    ghost predicate Valid()
      reads this, packets`next
    {
      && number == |packets|
      && Distinct(packets)
      && head == (if packets == [] then null else packets[0])
      && tail == (if packets == [] then null else packets[|packets| - 1])
      && forall i {:trigger packets[i].next} :: 0 <= i < |packets| ==> packets[i].next == if i + 1 < |packets| then packets[i + 1] else null
    }

    lemma HeadIs()
      requires Valid()
      ensures (head == null <==> packets == []) && number == |packets|
    {
    }

    /** InitializeQueueHeader. */
    constructor ()
      ensures Valid() && packets == []
    {
      head, tail, number, packets := null, null, 0, [];
    }

    /** RemoveHeadQueue. */
    method RemoveHead() returns (p: Packet?)
      requires Valid()
      modifies this, packets`next
      ensures Valid()
      ensures old(packets) == [] ==> p == null && packets == []
      ensures old(packets) != [] ==> p == old(packets)[0] && p.next == null && packets == old(packets)[1..]
    {
      p := head;
      if head != null {
        var next := head.next;
        head.next := null;
        head := next;
        if next == null {
          tail := null;
        }
        number := number - 1;
        packets := packets[1..];
      }
    }

    /** InsertHeadQueue. */
    method InsertHead(p: Packet)
      requires Valid() && p !in packets
      modifies this, p`next
      ensures Valid() && packets == [p] + old(packets)
    {
      p.next := head;
      head := p;
      if tail == null {
        tail := p;
      }
      number := number + 1;
      packets := [p] + packets;
    }

    /** InsertTailQueue. */
    method InsertTail(p: Packet)
      requires Valid() && p !in packets
      modifies this, p`next, packets`next
      ensures Valid() && packets == old(packets) + [p]
    {
      p.next := null;
      if tail != null {
        tail.next := p;
      } else {
        head := p;
      }
      tail := p;
      number := number + 1;
      packets := packets + [p];
    }
  }

  // ---------- batches ----------

  datatype Batch = Batch(kind: FrameType, packets: seq<Packet>)

  function TotalLen(ps: seq<Packet>): nat {
    if ps == [] then 0 else TotalLen(ps[..|ps| - 1]) + ps[|ps| - 1].len
  }

  function Flat(bs: seq<Batch>): seq<Packet> {
    if bs == [] then [] else Flat(bs[..|bs| - 1]) + bs[|bs| - 1].packets
  }

  /** A batch of two packets at most for Ralink aggregation, of bounded size for A-MSDU, of one
      packet otherwise; what joins the first packet is unicast and not special. */
  predicate WellFormed(b: Batch) {
    && (b.kind == TX_RALINK_FRAME ==> |b.packets| == 2)
    && (b.kind == TX_AMSDU_FRAME ==> |b.packets| >= 2 && TotalLen(b.packets) <= RX_BUFFER_AGGRESIZE - 100)
    && (b.kind != TX_RALINK_FRAME && b.kind != TX_AMSDU_FRAME ==> |b.packets| == 1)
    && (forall i :: 1 <= i < |b.packets| ==> !b.packets[i].mcast && !b.packets[i].special)
  }

  /** What the loop asks of the rest of the driver, by the number of the question. */
  datatype Env = Env(halted: nat -> bool, room: nat -> bool, back: nat -> bool, kind: nat -> FrameType, infra: nat -> bool)

  /** CanDoAggregateTransmit. */
  predicate CanAggregate(p: Packet, kind: FrameType, total: nat, number: nat, infra: bool) {
    if p.mcast then false
    else if p.special then false
    else if kind == TX_AMSDU_FRAME && total + p.len > RX_BUFFER_AGGRESIZE - 100 then false
    else if kind == TX_RALINK_FRAME && number == 2 then false
    else infra
  }

  // ---------- the loop on values ----------

  predicate Aggregates(kind: FrameType) {
    kind == TX_RALINK_FRAME || kind == TX_AMSDU_FRAME
  }

  /** How many packets of ps a batch takes that has n of them already, and the number of the last question. */
  function Extend(ps: seq<Packet>, n: nat, kind: FrameType, total: nat, env: Env, tick: nat): (r: (nat, nat))
    requires n <= |ps|
    ensures n <= r.0 <= |ps|
    decreases |ps| - n
  {
    if n == |ps| then (n, tick)
    else if !env.room(tick + 1) || !CanAggregate(ps[n], kind, total, n, env.infra(tick + 1)) then (n, tick + 1)
    else Extend(ps, n + 1, kind, total + ps[n].len, env, tick + 1)
  }

  /** A batch of n packets; none when n is 0. */
  datatype Outcome = Outcome(n: nat, kind: FrameType, tick: nat)

  function Turn(ps: seq<Packet>, env: Env, tick: nat): (o: Outcome)
    requires ps != []
    ensures o.n <= |ps|
  {
    var t := tick + 1;
    var kind := env.kind(t);
    if !env.room(t) || (kind == TX_RALINK_FRAME && env.back(t)) then Outcome(0, TX_LEGACY_FRAME, t)
    else Begun(ps, kind, env, t)
  }

  /** The batch that the packet at the head begins. */
  function Begun(ps: seq<Packet>, kind: FrameType, env: Env, tick: nat): (o: Outcome)
    requires ps != []
    ensures 1 <= o.n <= |ps|
  {
    if !Aggregates(kind) then Outcome(1, kind, tick)
    else
      var (n, t) := Extend(ps, 1, kind, ps[0].len, env, tick);
      Outcome(n, if n == 1 then TX_LEGACY_FRAME else kind, t)
  }

  datatype Service = Service(halted: bool, sent: seq<Batch>, tick: nat)

  /** One queue served: what is sent of ps when count packets went out before, counted in a byte. */
  function Served(ps: seq<Packet>, count: nat, max: nat, env: Env, tick: nat): Service
    decreases |ps|
  {
    var t := tick + 1;
    if env.halted(t) then Service(true, [], t)
    else if count >= max || ps == [] then Service(false, [], t)
    else
      var o := Turn(ps, env, t);
      if o.n == 0 then Service(false, [], o.tick)
      else Before([Batch(o.kind, ps[..o.n])], Served(ps[o.n..], (count + o.n) % 256, max, env, o.tick))
  }

  /** A packet that joins, and one that does not. */
  lemma Extends(a: seq<Packet>, b: seq<Packet>, kind: FrameType, total: nat, env: Env, tick: nat)
    ensures b == [] ==> Extend(a + b, |a|, kind, total, env, tick) == (|a|, tick)
    ensures b != [] ==> var joins := env.room(tick + 1) && CanAggregate(b[0], kind, total, |a|, env.infra(tick + 1));
      && (joins ==> Extend(a + b, |a|, kind, total, env, tick) == Extend(a + b, |a| + 1, kind, total + b[0].len, env, tick + 1))
      && (!joins ==> Extend(a + b, |a|, kind, total, env, tick) == (|a|, tick + 1))
  {
    hide CanAggregate;
  }

  lemma ServedStops(ps: seq<Packet>, count: nat, max: nat, env: Env, tick: nat)
    ensures env.halted(tick + 1) ==> Served(ps, count, max, env, tick) == Service(true, [], tick + 1)
    ensures !env.halted(tick + 1) && (count >= max || ps == []) ==> Served(ps, count, max, env, tick) == Service(false, [], tick + 1)
    ensures !env.halted(tick + 1) && count < max && ps != [] && Turn(ps, env, tick + 1).n == 0 ==>
      Served(ps, count, max, env, tick) == Service(false, [], Turn(ps, env, tick + 1).tick)
  {
    hide Turn;
  }

  lemma ServedGoesOn(a: seq<Packet>, b: seq<Packet>, count: nat, max: nat, env: Env, tick: nat, kind: FrameType, t: nat)
    requires a != [] && !env.halted(tick + 1) && count < max && Turn(a + b, env, tick + 1) == Outcome(|a|, kind, t)
    ensures Served(a + b, count, max, env, tick) == Before([Batch(kind, a)], Served(b, (count + |a|) % 256, max, env, t))
  {
    hide Turn;
    assert (a + b)[..|a|] == a && (a + b)[|a|..] == b;
  }

  function Before(bs: seq<Batch>, s: Service): Service {
    s.(sent := bs + s.sent)
  }

  // ---------- the loop ----------

  /** What a batch under construction keeps. */
  ghost predicate Growing(list: seq<Packet>, kind: FrameType, total: nat) {
    && list != [] && total == TotalLen(list)
    && (kind == TX_RALINK_FRAME ==> |list| <= 2)
    && (kind == TX_AMSDU_FRAME && |list| >= 2 ==> total <= RX_BUFFER_AGGRESIZE - 100)
    && (forall i :: 1 <= i < |list| ==> !list[i].mcast && !list[i].special)
  }

  lemma Grows(list: seq<Packet>, kind: FrameType, total: nat, p: Packet, infra: bool)
    requires Growing(list, kind, total) && CanAggregate(p, kind, total, |list|, infra)
    ensures Growing(list + [p], kind, total + p.len)
  {
    assert (list + [p])[..|list|] == list;
  }

  lemma DistinctParts(a: seq<Packet>, b: seq<Packet>)
    requires Distinct(a + b)
    ensures Distinct(a) && Distinct(b) && forall i :: 0 <= i < |a| ==> a[i] !in b
    ensures b != [] ==> b[0] !in a && b[0] !in b[1..]
    ensures b != [] ==> forall i :: 0 <= i < |a| ==> a[i] !in b[1..]
  {
    assert forall i :: 0 <= i < |a| ==> (a + b)[i] == a[i];
    assert forall i :: 0 <= i < |b| ==> (a + b)[|a| + i] == b[i];
  }

  lemma InParts(a: seq<Packet>, b: seq<Packet>)
    ensures forall i :: 0 <= i < |a| ==> a[i] in a + b
    ensures forall i :: 0 <= i < |b| ==> b[i] in a + b
  {
    assert forall i :: 0 <= i < |a| ==> (a + b)[i] == a[i];
    assert forall i :: 0 <= i < |b| ==> (a + b)[|a| + i] == b[i];
  }

  /** One packet from the queue's head to the batch's tail. */
  method Move(queue: Queue, list: Queue)
    requires queue != list && queue.Valid() && list.Valid() && queue.packets != [] && Distinct(list.packets + queue.packets)
    modifies queue, list, queue.packets`next, list.packets`next
    ensures queue.Valid() && list.Valid()
    ensures queue.packets == old(queue.packets)[1..] && list.packets == old(list.packets) + [old(queue.packets)[0]]
  {
    DistinctParts(list.packets, queue.packets);
    ghost var rest := queue.packets[1..];
    var entry := queue.RemoveHead();
    assert queue.Valid() && list.Valid() && queue.packets == rest && entry !in rest;
    list.InsertTail(entry);
  }

  lemma MovedAll(a: seq<Packet>, b: seq<Packet>)
    requires b != []
    ensures (a + [b[0]]) + b[1..] == a + b
    ensures b[0] in b && forall x :: x in b[1..] ==> x in b
  {
  }

  /** The inner loop: packets move from the queue to the batch while they may join it. */
  method Gather(queue: Queue, list: Queue, kind: FrameType, total0: nat, env: Env, tick0: nat) returns (tick: nat)
    requires queue != list && queue.Valid() && list.Valid() && Distinct(list.packets + queue.packets)
    requires Growing(list.packets, kind, total0)
    modifies queue, list, (list.packets + queue.packets)`next
    ensures queue.Valid() && list.Valid()
    ensures list.packets + queue.packets == old(list.packets + queue.packets)
    ensures exists total: nat :: Growing(list.packets, kind, total)
    ensures (|list.packets|, tick) == Extend(old(list.packets + queue.packets), old(|list.packets|), kind, total0, env, tick0)
  {
    hide TotalLen, Distinct, Growing, CanAggregate, Extend;
    tick := tick0;
    var total: nat := total0;
    ghost var all := list.packets + queue.packets;
    while queue.head != null
      invariant queue.Valid() && list.Valid()
      invariant list.packets + queue.packets == all && Distinct(all)
      invariant Growing(list.packets, kind, total)
      invariant Extend(all, |list.packets|, kind, total, env, tick) == Extend(all, old(|list.packets|), kind, total0, env, tick0)
      decreases |queue.packets|
    {
      var packet := queue.head;
      Extends(list.packets, queue.packets, kind, total, env, tick);
      tick := tick + 1;
      if !env.room(tick) || !CanAggregate(packet, kind, total, list.number, env.infra(tick)) {
        break;
      }
      Grows(list.packets, kind, total, packet, env.infra(tick));
      MovedAll(list.packets, queue.packets);
      InParts(list.packets, queue.packets);
      Move(queue, list);
      total := total + packet.len;
    }
    if queue.head == null {
      Extends(list.packets, queue.packets, kind, total, env, tick);
    }
  }

  lemma GrownIsWellFormed(list: seq<Packet>, kind: FrameType, total: nat)
    requires Growing(list, kind, total)
    requires kind != TX_RALINK_FRAME && kind != TX_AMSDU_FRAME ==> |list| == 1
    ensures list != [] && WellFormed(Batch(if |list| == 1 && (kind == TX_RALINK_FRAME || kind == TX_AMSDU_FRAME) then TX_LEGACY_FRAME else kind, list))
  {
  }

  /** The queue's head in a batch of its own. */
  method Begin(queue: Queue) returns (packet: Packet, list: Queue)
    requires queue.Valid() && queue.packets != []
    modifies queue, queue.packets`next
    ensures queue.Valid() && list.Valid() && fresh(list) && packet == old(queue.packets)[0] && list.packets == [packet]
    ensures queue.packets == old(queue.packets)[1..] && packet !in queue.packets && Distinct([packet] + queue.packets)
  {
    DistinctParts([], queue.packets);
    assert [queue.packets[0]] + queue.packets[1..] == queue.packets;
    packet := queue.RemoveHead();
    list := new Queue();
    list.InsertTail(packet);
  }

  lemma TailIn(s: seq<Packet>)
    requires s != []
    ensures [s[0]] + s[1..] == s && s[0] in s
    ensures forall i :: 0 <= i < |s| - 1 ==> s[1..][i] in s
  {
    assert forall i :: 0 <= i < |s| - 1 ==> s[1..][i] == s[i + 1];
  }

  /** One turn: a batch taken from the queue, or none when there is no room for it. */
  method TakeBatch(queue: Queue, env: Env, tick0: nat) returns (list: Queue?, kind: FrameType, tick: nat)
    requires queue.Valid() && queue.packets != []
    modifies queue, queue.packets`next
    ensures queue.Valid()
    ensures list == null ==> queue.packets == old(queue.packets)
    ensures list != null ==> list.Valid() && fresh(list) && list.packets != [] && list.packets + queue.packets == old(queue.packets)
    ensures list != null ==> WellFormed(Batch(kind, list.packets))
    ensures var o := Turn(old(queue.packets), env, tick0);
      tick == o.tick && (list == null <==> o.n == 0) && (list != null ==> |list.packets| == o.n && kind == o.kind)
  {
    hide TotalLen, Growing, WellFormed, Distinct, Begun;
    list, kind, tick := null, TX_LEGACY_FRAME, tick0 + 1;
    if env.room(tick) {
      kind := env.kind(tick);
      TailIn(queue.packets);
      var packet;
      packet, list := Begin(queue);
      if kind == TX_RALINK_FRAME && env.back(tick) {
        queue.InsertHead(packet);
        list := null;
      } else {
        kind, tick := Complete(queue, list, packet, kind, env, tick);
      }
    }
  }

  /** What joins the first packet of a batch, and the type the batch goes out with. */
  method Complete(queue: Queue, list: Queue, packet: Packet, kind0: FrameType, env: Env, tick0: nat) returns (kind: FrameType, tick: nat)
    requires queue != list && queue.Valid() && list.Valid() && list.packets == [packet] && Distinct([packet] + queue.packets)
    modifies queue, list, ([packet] + queue.packets)`next
    ensures queue.Valid() && list.Valid() && list.packets != [] && list.packets + queue.packets == old([packet] + queue.packets)
    ensures WellFormed(Batch(kind, list.packets))
    ensures Outcome(|list.packets|, kind, tick) == Begun(old([packet] + queue.packets), kind0, env, tick0)
  {
    hide TotalLen, Growing, WellFormed, Distinct, Extend;
    kind, tick := kind0, tick0;
    One(packet, kind);
    ghost var total: nat := packet.len;
    if kind == TX_RALINK_FRAME || kind == TX_AMSDU_FRAME {
      tick := Gather(queue, list, kind, packet.len, env, tick);
      total :| Growing(list.packets, kind, total);
    }
    GrownIsWellFormed(list.packets, kind, total);
    if list.number == 1 && (kind == TX_RALINK_FRAME || kind == TX_AMSDU_FRAME) {
      kind := TX_LEGACY_FRAME;
    }
  }

  lemma One(p: Packet, kind: FrameType)
    ensures Growing([p], kind, p.len)
  {
    assert [p][..0] == [];
  }

  /** RTMPDeQueuePacket on one queue: the batches handed to the hardware are, one after another,
      exactly what left the head of the queue. */
  method DequeueOne(queue: Queue, max: nat, env: Env, tick0: nat) returns (halted: bool, ghost sent: seq<Batch>, tick: nat)
    requires queue.Valid()
    modifies queue, queue.packets`next
    ensures queue.Valid() && Flat(sent) + queue.packets == old(queue.packets)
    ensures forall i :: 0 <= i < |sent| ==> WellFormed(sent[i])
    ensures Service(halted, sent, tick) == Served(old(queue.packets), 0, max, env, tick0)
  {
    hide WellFormed, Distinct, Queue.Valid, Flat, Turn, Before, Served;
    tick := tick0;
    sent := [];
    NothingSent(queue.packets);
    BeforeNone(Served(queue.packets, 0, max, env, tick));
    var count: nat := 0;
    halted := false;
    while true
      invariant queue.Valid() && Flat(sent) + queue.packets == old(queue.packets)
      invariant forall i :: 0 <= i < |queue.packets| ==> queue.packets[i] in old(queue.packets)
      invariant forall i :: 0 <= i < |sent| ==> WellFormed(sent[i])
      invariant Before(sent, Served(queue.packets, count, max, env, tick)) == Served(old(queue.packets), 0, max, env, tick0)
      decreases |queue.packets|
    {
      queue.HeadIs();
      ServedStops(queue.packets, count, max, env, tick);
      ghost var asked := tick;
      tick := tick + 1;
      if env.halted(tick) {
        halted := true;
        BeforeStop(sent, true, tick);
        return;
      }
      if count >= max || queue.head == null {
        BeforeStop(sent, false, tick);
        return;
      }
      var list, kind;
      list, kind, tick := TakeBatch(queue, env, tick);
      if list == null {
        BeforeStop(sent, false, tick);
        return;
      }
      list.HeadIs();
      InParts(list.packets, queue.packets);
      FlatMore(sent, Batch(kind, list.packets));
      ServedGoesOn(list.packets, queue.packets, count, max, env, asked, kind, tick);
      BeforeMore(sent, Batch(kind, list.packets), Served(queue.packets, (count + list.number) % 256, max, env, tick));
      sent := sent + [Batch(kind, list.packets)];
      count := (count + list.number) % 256;
    }
  }

  lemma BeforeNone(s: Service)
    ensures Before([], s) == s
  {
  }

  lemma BeforeMore(bs: seq<Batch>, b: Batch, s: Service)
    ensures Before(bs, Before([b], s)) == Before(bs + [b], s)
  {
    assert bs + ([b] + s.sent) == bs + [b] + s.sent;
  }

  lemma BeforeStop(bs: seq<Batch>, halted: bool, tick: nat)
    ensures Before(bs, Service(halted, [], tick)) == Service(halted, bs, tick)
  {
    assert bs + [] == bs;
  }

  lemma NothingSent(ps: seq<Packet>)
    ensures Flat([]) + ps == ps
  {
  }

  lemma FlatMore(bs: seq<Batch>, b: Batch)
    ensures Flat(bs + [b]) == Flat(bs) + b.packets
  {
    assert (bs + [b])[..|bs|] == bs;
  }

  // ---------- all access categories ----------

  /** The queues from q up to e served one after another, up to one at which the driver halts. */
  function ServedAll(queues: seq<seq<Packet>>, q: nat, e: nat, max: nat, env: Env, tick: nat): (ss: seq<Service>)
    requires e < |queues|
    ensures q <= e ==> |ss| <= e + 1 - q
    decreases |queues| - q
  {
    if q > e then []
    else
      var s := Served(queues[q], 0, max, env, tick);
      if s.halted then [s] else [s] + ServedAll(queues, q + 1, e, max, env, s.tick)
  }

  /** Different queues share nothing, and hold packets of all only. */
  ghost predicate Separate(queues: seq<Queue>, all: set<Packet>)
    reads queues`packets
  {
    && (forall i, j :: 0 <= i < j < |queues| ==> queues[i] != queues[j])
    && (forall i, k {:trigger queues[i].packets[k]} :: 0 <= i < |queues| && 0 <= k < |queues[i].packets| ==> queues[i].packets[k] in all)
    && (forall i, j, k {:trigger queues[i].packets[k], queues[j]} ::
          0 <= i < |queues| && 0 <= j < |queues| && i != j && 0 <= k < |queues[i].packets| ==> queues[i].packets[k] !in queues[j].packets)
  }

  lemma SuffixIn(a: seq<Packet>, b: seq<Packet>)
    ensures forall k :: 0 <= k < |b| ==> b[k] in a + b && b[k] == (a + b)[|a| + k]
    ensures forall x :: x !in a + b ==> x !in b
  {
    InParts(a, b);
  }

  /** One of several queues served; the others stay valid. */
  method ServeOne(queues: seq<Queue>, q: nat, max: nat, env: Env, tick0: nat, ghost all: set<Packet>)
    returns (halted: bool, ghost sent: seq<Batch>, tick: nat)
    requires q < |queues| && Separate(queues, all) && forall i :: 0 <= i < |queues| ==> queues[i].Valid()
    modifies queues[q], all`next
    ensures forall i :: 0 <= i < |queues| ==> queues[i].Valid()
    ensures forall i :: 0 <= i < |queues| && i != q ==> queues[i].packets == old(queues[i].packets)
    ensures Flat(sent) + queues[q].packets == old(queues[q].packets)
    ensures forall k :: 0 <= k < |sent| ==> WellFormed(sent[k])
    ensures Service(halted, sent, tick) == Served(old(queues[q].packets), 0, max, env, tick0)
  {
    hide WellFormed, Flat;
    halted, sent, tick := DequeueOne(queues[q], max, env, tick0);
  }

  method Serve(queues: seq<Queue>, q: nat, max: nat, env: Env, tick0: nat, ghost all: set<Packet>)
    returns (halted: bool, ghost sent: seq<Batch>, tick: nat)
    requires q < |queues| && Separate(queues, all) && forall i :: 0 <= i < |queues| ==> queues[i].Valid()
    modifies queues[q], all`next
    ensures Separate(queues, all) && forall i :: 0 <= i < |queues| ==> queues[i].Valid()
    ensures forall i :: 0 <= i < |queues| && i != q ==> queues[i].packets == old(queues[i].packets)
    ensures Flat(sent) + queues[q].packets == old(queues[q].packets)
    ensures forall k :: 0 <= k < |sent| ==> WellFormed(sent[k])
    ensures Service(halted, sent, tick) == Served(old(queues[q].packets), 0, max, env, tick0)
  {
    hide WellFormed, Flat, Queue.Valid;
    halted, sent, tick := ServeOne(queues, q, max, env, tick0, all);
    SuffixIn(Flat(sent), queues[q].packets);
  }

  ghost function PacketsOf(queues: seq<Queue>): (r: seq<seq<Packet>>)
    reads queues
    ensures |r| == |queues| && forall i :: 0 <= i < |queues| ==> r[i] == queues[i].packets
  {
    if queues == [] then [] else PacketsOf(queues[..|queues| - 1]) + [queues[|queues| - 1].packets]
  }

  lemma DoneMore(done: seq<Service>, s: Service, next: seq<Service>)
    requires next != [] && next[0] == s
    ensures done + next == (done + [s]) + next[1..]
  {
  }

  /** Which queues a call serves: the one named, or all four. */
  function First(qIdx: nat): nat { if qIdx == NUM_OF_TX_RING then 0 else qIdx }
  function Last(qIdx: nat): nat { if qIdx == NUM_OF_TX_RING then 3 else qIdx }

  /** Each queue from s on has lost, from its head, what its batches hold; every other is as it was. */
  ghost predicate Accounted(now: seq<seq<Packet>>, was: seq<seq<Packet>>, s: nat, done: seq<Service>) {
    && |now| == |was| && s + |done| <= |now|
    && (forall k :: 0 <= k < |done| ==> Flat(done[k].sent) + now[s + k] == was[s + k])
    && (forall i :: 0 <= i < |now| && !(s <= i < s + |done|) ==> now[i] == was[i])
    && (forall k, j :: 0 <= k < |done| && 0 <= j < |done[k].sent| ==> WellFormed(done[k].sent[j]))
  }

  lemma NothingDone(was: seq<seq<Packet>>, s: nat)
    requires s <= |was|
    ensures Accounted(was, was, s, [])
  {
  }

  lemma OneMoreDone(now0: seq<seq<Packet>>, now: seq<seq<Packet>>, was: seq<seq<Packet>>, s: nat, done: seq<Service>, next: Service)
    requires Accounted(now0, was, s, done) && |now| == |now0| && s + |done| < |now|
    requires Flat(next.sent) + now[s + |done|] == now0[s + |done|]
    requires forall i :: 0 <= i < |now| && i != s + |done| ==> now[i] == now0[i]
    requires forall j :: 0 <= j < |next.sent| ==> WellFormed(next.sent[j])
    ensures Accounted(now, was, s, done + [next])
  {
    hide WellFormed, Flat;
  }

  lemma StillToCome(now: seq<seq<Packet>>, was: seq<seq<Packet>>, s: nat, done: seq<Service>)
    requires Accounted(now, was, s, done) && s + |done| < |now|
    ensures now[s + |done|] == was[s + |done|]
  {
  }

  /** RTMPDeQueuePacket: one queue, or all four. Whatever the answers along the way, each queue loses
      a prefix only, and that prefix is what was sent from it, in order. */
  method DeQueuePacket(queues: seq<Queue>, qIdx: nat, max: nat, env: Env, ghost all: set<Packet>) returns (ghost done: seq<Service>)
    requires |queues| == NUM_OF_TX_RING && qIdx <= NUM_OF_TX_RING && Separate(queues, all)
    requires forall i :: 0 <= i < |queues| ==> queues[i].Valid()
    modifies queues, all`next
    ensures Separate(queues, all) && forall i :: 0 <= i < |queues| ==> queues[i].Valid()
    ensures done == ServedAll(old(PacketsOf(queues)), First(qIdx), Last(qIdx), max, env, 0)
    ensures Accounted(PacketsOf(queues), old(PacketsOf(queues)), First(qIdx), done)
  {
    hide WellFormed, Queue.Valid, Separate, Served, Flat, PacketsOf, Accounted;
    var s, e := First(qIdx), Last(qIdx);
    ghost var was := PacketsOf(queues);
    done := [];
    var q, tick := s, 0;
    NothingDone(was, s);
    while q <= e
      invariant s <= q <= e + 1 && |done| == q - s && Separate(queues, all)
      invariant forall i :: 0 <= i < |queues| ==> queues[i].Valid()
      invariant done + ServedAll(was, q, e, max, env, tick) == ServedAll(was, s, e, max, env, 0)
      invariant Accounted(PacketsOf(queues), was, s, done)
    {
      ghost var next, now0 := ServedAll(was, q, e, max, env, tick), PacketsOf(queues);
      StillToCome(now0, was, s, done);
      var halted;
      ghost var batches;
      halted, batches, tick := Serve(queues, q, max, env, tick, all);
      ghost var service := Service(halted, batches, tick);
      DoneMore(done, service, next);
      OneMoreDone(now0, PacketsOf(queues), was, s, done, service);
      done := done + [service];
      if halted {
        return;
      }
      q := q + 1;
    }
  }
}
