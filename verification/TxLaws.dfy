/** When a packet joins a batch, when a batch ends, and when a queue stops being served. */
module TxLaws {

  import opened TxQueue

  // ---------- batches ----------

  /** A packet joins exactly when the batch with it still has the shape of its kind, in infrastructure mode. */
  lemma JoinsIff(list: seq<Packet>, kind: FrameType, total: nat, p: Packet, infra: bool)
    requires Growing(list, kind, total) && Aggregates(kind)
    ensures CanAggregate(p, kind, total, |list|, infra) <==> infra && WellFormed(Batch(kind, list + [p]))
  {
    var more := list + [p];
    assert more[..|more| - 1] == list && more[|list|] == p;
    assert forall i :: 0 <= i < |list| ==> more[i] == list[i];
  }

  /** What an extended batch keeps: it is well formed, and it ends only where it has to. */
  lemma {:induction false} ExtendIsMaximal(ps: seq<Packet>, n: nat, kind: FrameType, total: nat, env: Env, tick: nat)
    requires 1 <= n <= |ps| && Aggregates(kind) && Growing(ps[..n], kind, total)
    ensures var (m, t) := Extend(ps, n, kind, total, env, tick);
      && (forall q :: tick < q <= tick + (m - n) ==> env.room(q) && env.infra(q))
      && t == tick + (m - n) + (if m < |ps| then 1 else 0)
      && (m < |ps| ==> !env.room(t) || !env.infra(t) || !WellFormed(Batch(kind, ps[..m + 1])))
    decreases |ps| - n
  {
    hide Growing, CanAggregate, WellFormed;
    if n < |ps| {
      var p := ps[n];
      assert ps[..n + 1] == ps[..n] + [p];
      JoinsIff(ps[..n], kind, total, p, env.infra(tick + 1));
      if env.room(tick + 1) && CanAggregate(p, kind, total, n, env.infra(tick + 1)) {
        Grows(ps[..n], kind, total, p, env.infra(tick + 1));
        ExtendIsMaximal(ps, n + 1, kind, total + p.len, env, tick + 1);
      }
    }
  }

  /** One turn: there is no batch only for want of room or for a Ralink frame held back, a frame that does not
      aggregate goes alone, and any other takes in all that room, mode and the shape of its kind allow. */
  lemma TurnIsMaximal(ps: seq<Packet>, env: Env, tick: nat)
    requires ps != []
    ensures var o, kind := Turn(ps, env, tick), env.kind(tick + 1);
      && (o.n == 0 <==> !env.room(tick + 1) || (kind == TX_RALINK_FRAME && env.back(tick + 1)))
      && (o.n > 0 && !Aggregates(kind) ==> o.n == 1 && o.kind == kind)
      && (o.n > 0 && Aggregates(kind) ==> o.kind == if o.n == 1 then TX_LEGACY_FRAME else kind)
      && (o.n > 0 && Aggregates(kind) && o.n < |ps| ==>
            !env.room(o.tick) || !env.infra(o.tick) || !WellFormed(Batch(kind, ps[..o.n + 1])))
  {
    hide Growing, CanAggregate, WellFormed, Extend;
    var kind := env.kind(tick + 1);
    if Aggregates(kind) {
      assert ps[..1] == [ps[0]];
      One(ps[0], kind);
      ExtendIsMaximal(ps, 1, kind, ps[0].len, env, tick + 1);
    }
  }

  // ---------- queues ----------

  lemma FlatBefore(b: Batch, bs: seq<Batch>)
    ensures Flat([b] + bs) == b.packets + Flat(bs)
    decreases |bs|
  {
    if bs == [] {
      assert [b] + bs == [b] && [b][..0] == [];
      assert b.packets + Flat(bs) == b.packets;
    } else {
      var most, last := bs[..|bs| - 1], bs[|bs| - 1];
      FlatBefore(b, most);
      assert ([b] + bs)[..|bs|] == [b] + most && ([b] + bs)[|bs|] == last;
      assert Flat([b] + bs) == Flat([b] + most) + last.packets;
    }
  }

  lemma FlatOfPrefix(b: Batch, bs: seq<Batch>, i: nat)
    requires 0 < i <= |bs| + 1
    ensures Flat(([b] + bs)[..i]) == b.packets + Flat(bs[..i - 1])
  {
    assert ([b] + bs)[..i] == [b] + bs[..i - 1];
    FlatBefore(b, bs[..i - 1]);
  }

  /** A turn that sends a batch. */
  lemma OneBatch(ps: seq<Packet>, count: nat, max: nat, env: Env, tick: nat)
    requires !env.halted(tick + 1) && count < max && ps != [] && Turn(ps, env, tick + 1).n > 0
    ensures var o, s := Turn(ps, env, tick + 1), Served(ps, count, max, env, tick);
      var rest := Served(ps[o.n..], (count + o.n) % 256, max, env, o.tick);
      && s == Service(rest.halted, [Batch(o.kind, ps[..o.n])] + rest.sent, rest.tick)
      && Flat(s.sent) == ps[..o.n] + Flat(rest.sent)
      && ps == ps[..o.n] + ps[o.n..]
  {
    hide Turn, Flat;
    var o := Turn(ps, env, tick + 1);
    FlatBefore(Batch(o.kind, ps[..o.n]), Served(ps[o.n..], (count + o.n) % 256, max, env, o.tick).sent);
  }

  lemma PrefixAfter(a: seq<Packet>, b: seq<Packet>, c: seq<Packet>)
    ensures b <= c ==> a + b <= a + c
    ensures b != c <==> a + b != a + c
  {
    assert (a + b)[|a|..] == b && (a + c)[|a|..] == c;
  }

  /** What is sent is a prefix of the queue. */
  lemma {:induction false} SentIsPrefix(ps: seq<Packet>, count: nat, max: nat, env: Env, tick: nat)
    ensures Flat(Served(ps, count, max, env, tick).sent) <= ps
    decreases |ps|
  {
    hide Turn, Served;
    ServedStops(ps, count, max, env, tick);
    if !env.halted(tick + 1) && count < max && ps != [] {
      var o := Turn(ps, env, tick + 1);
      if o.n > 0 {
        OneBatch(ps, count, max, env, tick);
        SentIsPrefix(ps[o.n..], (count + o.n) % 256, max, env, o.tick);
        PrefixAfter(ps[..o.n], Flat(Served(ps[o.n..], (count + o.n) % 256, max, env, o.tick).sent), ps[o.n..]);
      }
    }
  }

  lemma CountOn(count: nat, n: nat, m: nat)
    ensures ((count + n) % 256 + m) % 256 == (count + n + m) % 256
  {
  }

  lemma TurnSays(ps: seq<Packet>, env: Env, tick: nat)
    requires ps != []
    ensures var o := Turn(ps, env, tick);
      && (o.n == 0 <==> !env.room(tick + 1) || (env.kind(tick + 1) == TX_RALINK_FRAME && env.back(tick + 1)))
      && (o.n == 0 ==> o.tick == tick + 1)
  {
  }

  /** A queue is left with packets in it only when the driver halts, the count has reached its limit, there is no
      room, or a Ralink frame is held back. */
  lemma {:induction false} StopsOnlyWhen(ps: seq<Packet>, count: nat, max: nat, env: Env, tick: nat)
    requires count < 256
    ensures var s := Served(ps, count, max, env, tick);
      && (s.halted ==> env.halted(s.tick))
      && (!s.halted && Flat(s.sent) != ps ==>
            || (count + |Flat(s.sent)|) % 256 >= max
            || !env.room(s.tick)
            || (env.kind(s.tick) == TX_RALINK_FRAME && env.back(s.tick)))
    decreases |ps|
  {
    hide Turn, Served;
    ServedStops(ps, count, max, env, tick);
    if !env.halted(tick + 1) && count < max && ps != [] {
      var o := Turn(ps, env, tick + 1);
      TurnSays(ps, env, tick + 1);
      if o.n > 0 {
        var sent := Flat(Served(ps[o.n..], (count + o.n) % 256, max, env, o.tick).sent);
        OneBatch(ps, count, max, env, tick);
        StopsOnlyWhen(ps[o.n..], (count + o.n) % 256, max, env, o.tick);
        PrefixAfter(ps[..o.n], sent, ps[o.n..]);
        CountOn(count, o.n, |sent|);
      }
    }
  }

  /** With room throughout and nothing held back, a queue no longer than the limit is emptied. */
  lemma {:induction false} EverythingGoes(ps: seq<Packet>, count: nat, max: nat, env: Env, tick: nat)
    requires count + |ps| <= max < 256
    requires forall t :: !env.halted(t) && env.room(t) && !env.back(t)
    ensures var s := Served(ps, count, max, env, tick); !s.halted && Flat(s.sent) == ps
    decreases |ps|
  {
    hide Turn, Served;
    ServedStops(ps, count, max, env, tick);
    if ps != [] {
      var o := Turn(ps, env, tick + 1);
      TurnSays(ps, env, tick + 1);
      OneBatch(ps, count, max, env, tick);
      EverythingGoes(ps[o.n..], count + o.n, max, env, o.tick);
    }
  }

  /** A batch begins under the limit, as long as no batch can carry the count past the byte it is kept in. */
  lemma {:induction false} LimitKept(ps: seq<Packet>, count: nat, max: nat, env: Env, tick: nat)
    requires max < 256 && count < 256
    requires forall b :: b in Served(ps, count, max, env, tick).sent ==> |b.packets| <= 256 - max
    ensures var sent := Served(ps, count, max, env, tick).sent;
      forall i :: 0 <= i < |sent| ==> count + |Flat(sent[..i])| < max
    decreases |ps|
  {
    hide Turn, Served, Flat;
    ServedStops(ps, count, max, env, tick);
    if !env.halted(tick + 1) && count < max && ps != [] {
      var o, sent := Turn(ps, env, tick + 1), Served(ps, count, max, env, tick).sent;
      if o.n > 0 {
        OneBatch(ps, count, max, env, tick);
        var b := Batch(o.kind, ps[..o.n]);
        var rest := Served(ps[o.n..], (count + o.n) % 256, max, env, o.tick).sent;
        assert sent[0] == b && forall c :: c in rest ==> c in sent;
        assert count + o.n < 256;
        LimitKept(ps[o.n..], count + o.n, max, env, o.tick);
        BatchesOn(b, rest, count, max);
      }
    }
  }

  lemma BatchesOn(b: Batch, rest: seq<Batch>, count: nat, max: nat)
    requires count < max
    requires forall i :: 0 <= i < |rest| ==> count + |b.packets| + |Flat(rest[..i])| < max
    ensures forall i :: 0 <= i < |rest| + 1 ==> count + |Flat(([b] + rest)[..i])| < max
  {
    forall i | 0 <= i < |rest| + 1
      ensures count + |Flat(([b] + rest)[..i])| < max
    {
      if i > 0 {
        FlatOfPrefix(b, rest, i);
      }
    }
  }

  lemma PairLeaves(ps: seq<Packet>, env: Env, tick: nat)
    requires |ps| >= 2 && !ps[1].mcast && !ps[1].special
    requires forall t :: env.room(t) && !env.back(t) && env.infra(t) && env.kind(t) == TX_RALINK_FRAME
    ensures Turn(ps, env, tick).n == 2
  {
    assert Extend(ps, 2, TX_RALINK_FRAME, ps[0].len + ps[1].len, env, tick + 2).0 == 2;
  }

  /** That is needed: pairs carry the byte from 254 to 0, and under a limit of 255 a queue of pairs is sent whole,
      however long it is. */
  lemma {:induction false} PairsPassTheLimit(ps: seq<Packet>, count: nat, env: Env, tick: nat)
    requires |ps| % 2 == 0 && forall i :: 0 <= i < |ps| ==> !ps[i].mcast && !ps[i].special
    requires count < 256 && count % 2 == 0
    requires forall t :: !env.halted(t) && env.room(t) && !env.back(t) && env.infra(t) && env.kind(t) == TX_RALINK_FRAME
    ensures var s := Served(ps, count, 255, env, tick); !s.halted && Flat(s.sent) == ps
    decreases |ps|
  {
    hide Turn, Served;
    ServedStops(ps, count, 255, env, tick);
    if ps != [] {
      PairLeaves(ps, env, tick + 1);
      OneBatch(ps, count, 255, env, tick);
      PairsPassTheLimit(ps[2..], (count + 2) % 256, env, Turn(ps, env, tick + 1).tick);
    }
  }
}
