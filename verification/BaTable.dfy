/** The Block Ack tables in place: entry arrays, station arrays and counters, on top of the reorder
    engine. Each method is proved to take the tables to what SessionSpec says. */
module BaTable {
  import opened SessionSpec
  import opened ReorderSpec
  import RE = ReorderEngine

  /** What the timeout flushes of one station's sessions hand up, in the order of the TIDs below tid. */
  ghost function StationOut(ss: seq<Session>, slots: seq<nat>, clock: (nat, nat) -> Expiry, w: nat, tid: nat): seq<Event>
    requires tid <= |slots| && forall t :: 0 <= t < tid ==> slots[t] < |ss|
  {
    if tid == 0 then []
    else StationOut(ss, slots, clock, w, tid - 1) + Flush(ss[slots[tid - 1]], 0, clock(w, tid - 1)).out
  }

  /** The session slots of every station point into the sessions. */
  ghost predicate Pointing(ss: seq<Session>, mac: seq<Station>) {
    forall v :: 0 <= v < |mac| ==> |mac[v].rec| == NUM_OF_TID && forall t :: 0 <= t < NUM_OF_TID ==> mac[v].rec[t] < |ss|
  }

  /** What the periodic pass hands up, station by station from 1 on. */
  ghost function PassOut(ss: seq<Session>, mac: seq<Station>, present: set<nat>, clock: (nat, nat) -> Expiry, w: nat): seq<Event>
    requires w <= |mac| && Pointing(ss, mac)
  {
    if w <= 1 then []
    else
      PassOut(ss, mac, present, clock, w - 1) +
      (if w - 1 in present then StationOut(ss, mac[w - 1].rec, clock, w - 1, NUM_OF_TID) else [])
  }

  lemma {:induction false} SameStationOut(ss: seq<Session>, tt: seq<Session>, slots: seq<nat>, clock: (nat, nat) -> Expiry, w: nat, tid: nat)
    requires tid <= |slots| && |ss| == |tt| && forall t :: 0 <= t < tid ==> slots[t] < |ss| && ss[slots[t]] == tt[slots[t]]
    ensures StationOut(ss, slots, clock, w, tid) == StationOut(tt, slots, clock, w, tid)
  {
    hide Flush;
    if tid > 0 { SameStationOut(ss, tt, slots, clock, w, tid - 1); }
  }

  class Table {
    const ori: array<OriEntry>
    const rec: array<RecEntry>
    const mac: array<Station>
    var numAsRecipient: int
    var numAsOriginator: int
    var numDoneOriginator: int
    const engine: RE.Engine

    ghost function View(): Tables
      reads this, ori, rec, mac
    {
      Tables(ori[..], rec[..], mac[..], numAsRecipient, numAsOriginator, numDoneOriginator)
    }

    /** The reorder lists fit the sessions: free entries hold nothing, sessions have a window. */
    ghost predicate Aligned()
      reads this, rec, engine, engine.Repr
      requires engine.Valid()
    {
      && |engine.entries| == rec.Length
      && forall i {:trigger engine.Sess(i)} :: 0 <= i < rec.Length ==>
           if rec[i].status.RecNone? then engine.Sess(i).buf == [] else 1 <= engine.Sess(i).win <= 255
    }

    ghost predicate Valid()
      reads this, ori, rec, mac, engine, engine.Repr
    {
      && Consistent(View())
      && 0 < mac.Length
      && {this, ori, rec, mac} !! engine.Repr
      && engine.Valid() && engine.Whole()
      && Aligned()
    }

    /** Empty tables for a number of stations, over a pool of blocks. */
    constructor (stations: nat, blocks: nat)
      requires stations > 0
      ensures Valid() && numAsOriginator == numAsRecipient == 0 && mac.Length == stations
      ensures ori.Length == rec.Length == NUM_OF_TID * stations / 2 && engine.Free() == blocks
    {
      hide RE.Engine.Valid, RE.Engine.Shape, RE.Engine.Whole, Consistent;
      var n := NUM_OF_TID * stations / 2;
      ori := new OriEntry[n](_ => OriEntry(OriNone, 0, 0, 0, 0));
      rec := new RecEntry[n](_ => RecEntry(RecNone, 0, 0));
      mac := new Station[stations](_ => Station(seq(NUM_OF_TID, _ => 0), seq(NUM_OF_TID, _ => 0), {}, {}, {}));
      numAsRecipient, numAsOriginator, numDoneOriginator := 0, 0, 0;
      engine := new RE.Engine(blocks, n);
      new;
      EmptyIsConsistent(View());
    }

    /** No session moved and nothing was handed on. */
    twostate predicate Untouched()
      reads this, rec, engine, engine.Repr
      requires old(engine.Valid()) && engine.Valid() && rec.Length <= |engine.entries|
    {
      && engine.log == old(engine.log)
      && forall j {:trigger engine.Sess(j)} :: 0 <= j < rec.Length ==> engine.Sess(j) == old(engine.Sess(j))
    }

    // ---------- originator ----------

    /** Reserve a free originator entry; 0 when there is none. */
    method AllocOri() returns (idx: nat)
      requires Consistent(View())
      modifies this`numAsOriginator, ori
      ensures idx == 0 <==> old(numAsOriginator) >= ori.Length - 1
      ensures idx == 0 ==> View() == old(View())
      ensures idx != 0 ==> idx == FirstFreeOri(old(ori[..]), 1) < ori.Length
      ensures idx != 0 ==> View() == old(View()).(ori := old(ori[..])[idx := old(ori[idx]).(status := OriUsed)], numAsOriginator := old(numAsOriginator) + 1)
    {
      idx := 0;
      if numAsOriginator >= ori.Length - 1 {
        return;
      }
      OriScanFindsIffGuardPasses(View());
      for i := 1 to ori.Length
        invariant idx == 0 && View() == old(View())
        invariant FirstFreeOri(ori[..], 1) >= i
      {
        if ori[i].status.OriNone? {
          numAsOriginator := numAsOriginator + 1;
          ori[i] := ori[i].(status := OriUsed);
          return i;
        }
      }
    }

    /** Ask a station for a session as originator. */
    method OriSessionSetUp(wcid: nat, tid: nat, autoBa: bool, forced: bool, ht: bool, limit: nat)
      requires Valid() && wcid < mac.Length
      modifies this`numAsOriginator, ori, mac
      ensures View() == OriSetUp(old(View()), wcid, tid, (autoBa || forced) && ht, limit)
      ensures Valid()
    {
      hide RE.Engine.Valid, RE.Engine.Shape, RE.Engine.Whole, CountOri, CountDone, CountRec, FirstFreeOri;
      if tid >= NUM_OF_TID || (!autoBa && !forced) || !ht {
        return;
      }
      OriSetUpKeeps(View(), wcid, tid, true, limit);
      SlotFacts(wcid, tid);
      var idx := mac[wcid].ori[tid];
      if idx == 0 {
        idx := AllocOri();
        if idx == 0 {
          return;
        }
      }
      if ori[idx].status.OriWaitRes? || ori[idx].status.OriDone? {
        return;
      }
      mac[wcid] := mac[wcid].(ori := mac[wcid].ori[tid := idx]);
      ori[idx] := OriEntry(OriWaitRes, wcid, tid, limit, 1);
    }

    /** What consistency says about one slot. */
    lemma SlotFacts(wcid: nat, tid: nat)
      requires Consistent(View()) && wcid < mac.Length && tid < NUM_OF_TID
      ensures |mac[wcid].ori| == NUM_OF_TID && |mac[wcid].rec| == NUM_OF_TID
      ensures mac[wcid].ori[tid] < ori.Length && mac[wcid].rec[tid] < rec.Length
      ensures mac[wcid].ori[tid] != 0 ==>
        (var e := ori[mac[wcid].ori[tid]]; (e.status.OriWaitRes? || e.status.OriDone?) && e.wcid == wcid && e.tid == tid)
      ensures mac[wcid].rec[tid] != 0 ==>
        (var e := rec[mac[wcid].rec[tid]]; e.status.RecAccept? && e.wcid == wcid && e.tid == tid)
      ensures tid in mac[wcid].rx <==> mac[wcid].rec[tid] != 0
      ensures ori.Length > 0 && rec.Length > 0 && ori[0].status.OriNone? && rec[0].status.RecNone?
    {
      assert SlotOk(View(), wcid, tid);
    }

    /** The station agreed. */
    method OriSessionAdd(wcid: nat, tid: nat, bufSize: nat, cap: nat)
      requires Valid() && wcid < mac.Length && tid < NUM_OF_TID
      modifies this`numDoneOriginator, ori, mac
      ensures View() == OriAdd(old(View()), wcid, tid, bufSize, cap)
      ensures Valid()
    {
      hide RE.Engine.Valid, RE.Engine.Shape, RE.Engine.Whole, CountOri, CountDone, CountRec, SlotOk, OriOk, RecOk;
      OriAddKeeps(View(), wcid, tid, bufSize, cap);
      SlotFacts(wcid, tid);
      var idx := mac[wcid].ori[tid];
      if idx != 0 && ori[idx].tid == tid && ori[idx].status.OriWaitRes? {
        var peer := bufSize % 256;
        if peer > 0 {
          peer := peer - 1;
        }
        var win := Min(ori[idx].win, peer);
        if win > cap {
          win := cap;
        }
        ori[idx] := ori[idx].(status := OriDone, win := win);
        numDoneOriginator := numDoneOriginator + 1;
        mac[wcid] := mac[wcid].(tx := mac[wcid].tx + {tid});
      }
    }

    method FreeOriEntry(idx: nat)
      requires Valid()
      modifies this`numDoneOriginator, this`numAsOriginator, ori, mac
      ensures View() == OriFree(old(View()), idx)
      ensures Valid()
    {
      hide RE.Engine.Valid, RE.Engine.Shape, RE.Engine.Whole, CountOri, CountDone, CountRec, SlotOk, OriOk, RecOk;
      OriFreeKeeps(View(), idx);
      if idx == 0 || idx >= ori.Length {
        return;
      }
      var e := ori[idx];
      if !e.status.OriNone? {
        assert View().ori[idx] == e && e.wcid < |View().mac|;
        assert View().mac[e.wcid] == mac[e.wcid];
        mac[e.wcid] := mac[e.wcid].(ori := mac[e.wcid].ori[e.tid := 0]);
        if e.status.OriDone? {
          numDoneOriginator := numDoneOriginator - 1;
          mac[e.wcid] := mac[e.wcid].(tx := mac[e.wcid].tx - {e.tid});
        }
        numAsOriginator := numAsOriginator - 1;
        ori[idx] := ori[idx].(status := OriNone, token := 0);
      }
    }

    method OriSessionTearDown(wcid: nat, tid: nat, passive: bool, memory: bool)
      requires Valid() && tid < NUM_OF_TID
      modifies this`numDoneOriginator, this`numAsOriginator, ori, mac
      ensures View() == OriTearDown(old(View()), wcid, tid, passive, memory)
      ensures Valid()
    {
      hide RE.Engine.Valid, RE.Engine.Shape, RE.Engine.Whole, CountOri, CountDone, CountRec, SlotOk, OriOk, RecOk, OriFree;
      if wcid >= mac.Length {
        return;
      }
      SlotFacts(wcid, tid);
      var idx := mac[wcid].ori[tid];
      if idx == 0 || idx >= ori.Length {
        return;
      }
      if !passive && tid == ori[idx].tid && ori[idx].status.OriDone? && !memory {
        return;
      }
      FreeOriEntry(idx);
    }

    /** The set-up timer of an entry fires. */
    method OriSetupTimeout(entry: nat, scanning: bool)
      requires Valid() && entry < ori.Length
      modifies this`numDoneOriginator, this`numAsOriginator, ori, mac
      ensures View() == OriTimeout(old(View()), entry, scanning)
      ensures Valid()
    {
      hide RE.Engine.Valid, RE.Engine.Shape, RE.Engine.Whole, CountOri, CountDone, CountRec, SlotOk, OriOk, RecOk, OriFree;
      OriTimeoutKeeps(View(), entry, scanning);
      var e := ori[entry];
      if e.status.OriWaitRes? && e.token < ORI_SESSION_MAX_RETRY {
        if scanning {
          return;
        }
        ori[entry] := e.(token := e.token + 1);
      } else {
        assert View().ori[entry] == e;
        assert View().mac[e.wcid] == mac[e.wcid];
        FreeOriEntry(mac[e.wcid].ori[e.tid]);
      }
    }

    // ---------- recipient ----------

    method AllocRec() returns (idx: nat)
      requires Consistent(View())
      modifies this`numAsRecipient, rec
      ensures idx == 0 <==> old(numAsRecipient) >= rec.Length - 1
      ensures idx == 0 ==> View() == old(View())
      ensures idx != 0 ==> idx == FirstFreeRec(old(rec[..]), 1) < rec.Length
      ensures idx != 0 ==> View() == old(View()).(rec := old(rec[..])[idx := old(rec[idx]).(status := RecUsed)], numAsRecipient := old(numAsRecipient) + 1)
    {
      idx := 0;
      if numAsRecipient >= rec.Length - 1 {
        return;
      }
      RecScanFindsIffGuardPasses(View());
      for i := 1 to rec.Length
        invariant idx == 0 && View() == old(View())
        invariant FirstFreeRec(rec[..], 1) >= i
      {
        if rec[i].status.RecNone? {
          numAsRecipient := numAsRecipient + 1;
          rec[i] := rec[i].(status := RecUsed);
          return i;
        }
      }
    }

    /** A peer asks for a session with us as recipient; ok when it gets one. */
    method RecSessionAdd(wcid: nat, tid: nat, bufSize: nat, limit: nat) returns (ok: bool)
      requires Valid() && wcid < mac.Length && tid < NUM_OF_TID
      modifies this`numAsRecipient, rec, mac, engine.Repr
      ensures Valid()
      ensures View() == RecAdd(old(View()), wcid, tid).0
      ensures ok <==> RecAdd(old(View()), wcid, tid).1 != 0
      ensures ok ==> var i := RecAdd(old(View()), wcid, tid).1;
        i < rec.Length && engine.Did(i, old(Result(Session(RESET_RCV_SEQ, GrantedWindow(bufSize, limit), []),
                                    engine.Free() + |engine.Sess(i).buf|, Announce(engine.Sess(i).buf))))
      ensures !ok ==> Untouched()
    {
      hide RE.Engine.Valid, RE.Engine.Shape, RE.Engine.Whole, Consistent, FirstFreeRec, GrantedWindow;
      RecAddKeeps(View(), wcid, tid);
      SlotFacts(wcid, tid);
      var win := GrantedWindow(bufSize, limit);
      var idx := mac[wcid].rec[tid];
      var inUse := idx != 0;
      if inUse {
        RecAddAgain(View(), wcid, tid);
      }
      if !inUse {
        idx := AllocRec();
        if idx == 0 {
          return false;
        }
      }
      engine.Open(idx, win, inUse);
      label Opened:
      Record(idx, wcid, tid);
      assert View() == RecAdd(old(View()), wcid, tid).0;
      assert Aligned() by {
        forall j {:trigger engine.Sess(j)} | 0 <= j < rec.Length
          ensures if rec[j].status.RecNone? then engine.Sess(j).buf == [] else 1 <= engine.Sess(j).win <= 255
        {
          assert engine.Sess(j) == old@Opened(engine.Sess(j));
          assert j != idx ==> rec[j] == old(rec[j]) && engine.Sess(j) == old(engine.Sess(j));
        }
      }
      return true;
    }

    /** Write the entry and the slot of an accepted session. */
    method Record(idx: nat, wcid: nat, tid: nat)
      requires idx < rec.Length && wcid < mac.Length && tid < |mac[wcid].rec|
      modifies rec, mac
      ensures rec[..] == old(rec[..])[idx := RecEntry(RecAccept, wcid, tid)]
      ensures var m := old(mac[wcid]);
        mac[..] == old(mac[..])[wcid := m.(rx := m.rx + {tid}, rec := m.rec[tid := idx], declined := m.declined - {tid})]
    {
      rec[idx] := RecEntry(RecAccept, wcid, tid);
      var m := mac[wcid];
      mac[wcid] := m.(rx := m.rx + {tid}, rec := m.rec[tid := idx], declined := m.declined - {tid});
    }

    /** Erase an entry and its slot. */
    method Erase(idx: nat, wcid: nat, tid: nat)
      requires Consistent(View()) && idx != 0 && idx < rec.Length && wcid < mac.Length && tid < NUM_OF_TID
      requires mac[wcid].rec[tid] == idx
      modifies this`numAsRecipient, rec, mac
      ensures View() == RecRemove(old(View()), idx)
    {
      hide CountOri, CountDone, CountRec;
      SlotFacts(wcid, tid);
      var m := mac[wcid];
      mac[wcid] := m.(rx := m.rx - {tid}, rec := m.rec[tid := 0]);
      FreeRecEntry(idx);
      assert m.rec[tid := 0][tid := 0] == m.rec[tid := 0];
    }

    method FreeRecEntry(idx: nat)
      requires idx < rec.Length ==> rec[idx].wcid < mac.Length && rec[idx].tid < |mac[rec[idx].wcid].rec|
      modifies this`numAsRecipient, rec, mac
      ensures if idx == 0 || idx >= rec.Length || old(rec[idx]).status.RecNone? then View() == old(View())
        else var e := old(rec[idx]); var m := old(mac[e.wcid]);
          View() == old(View()).(rec := old(rec[..])[idx := e.(status := RecNone)],
            mac := old(mac[..])[e.wcid := m.(rec := m.rec[e.tid := 0])], numAsRecipient := old(numAsRecipient) - 1)
    {
      if idx == 0 || idx >= rec.Length {
        return;
      }
      var e := rec[idx];
      if !e.status.RecNone? {
        mac[e.wcid] := mac[e.wcid].(rec := mac[e.wcid].rec[e.tid := 0]);
        numAsRecipient := numAsRecipient - 1;
        rec[idx] := e.(status := RecNone);
      }
    }

    /** End the session in which station wcid sends on TID tid. Nothing stays in its list. */
    method RecSessionTearDown(wcid: nat, tid: nat, passive: bool, memory: bool)
      requires Valid() && tid < NUM_OF_TID
      modifies this`numAsRecipient, rec, mac, engine.Repr
      ensures Valid()
      ensures View() == RecTearDown(old(View()), wcid, tid, passive, memory)
      ensures View() != old(View()) ==> var i := old(mac[wcid].rec[tid]);
        i < rec.Length && engine.Did(i, old(Result(Session(RESET_RCV_SEQ, 0, []), engine.Free() + |engine.Sess(i).buf|, Announce(engine.Sess(i).buf))))
      ensures View() == old(View()) ==> Untouched()
    {
      hide RE.Engine.Valid, RE.Engine.Shape, RE.Engine.Whole, Consistent, RecRemove;
      if wcid >= mac.Length {
        return;
      }
      SlotFacts(wcid, tid);
      var idx := mac[wcid].rec[tid];
      if idx == 0 || (!passive && !memory) {
        return;
      }
      RecRemoveKeeps(View(), idx);
      RecRemoveTakes(View(), idx);
      engine.Close(idx);
      label Closed:
      Erase(idx, wcid, tid);
      assert Aligned() by {
        forall j {:trigger engine.Sess(j)} | 0 <= j < rec.Length
          ensures if rec[j].status.RecNone? then engine.Sess(j).buf == [] else 1 <= engine.Sess(j).win <= 255
        {
          assert engine.Sess(j) == old@Closed(engine.Sess(j));
          assert View().rec[j] == rec[j];
          assert j != idx ==> rec[j] == old(rec[j]) && engine.Sess(j) == old(engine.Sess(j));
        }
      }
    }

    // ---------- traffic ----------

    /** A data frame of an aggregate arrives from station wcid on TID tid. */
    method IndicateAmpduPacket(wcid: nat, tid: nat, rx: Rx, e: Expiry)
      requires Valid() && tid < NUM_OF_TID
      modifies engine.Repr
      ensures Valid()
      ensures var i := if wcid < mac.Length then mac[wcid].rec[tid] else 0;
        if i != 0 then
          i < rec.Length && engine.Did(i, old(IndicateAmpdu(engine.Sess(i), engine.Free(), rx, e)))
        else
          && (forall j {:trigger engine.Sess(j)} :: 0 <= j < rec.Length ==> engine.Sess(j) == old(engine.Sess(j)))
          && engine.log == old(engine.log) +
               [if wcid >= mac.Length || (!rx.frame.amsdu && rx.dataSize > MAX_RX_PKT_LEN) then Released(rx.frame) else Indicate(rx)]
    {
      hide RE.Engine.Valid, RE.Engine.Shape, RE.Engine.Whole, Consistent, Flush, Arrive;
      if wcid < mac.Length {
        SlotFacts(wcid, tid);
      }
      if !rx.frame.amsdu && rx.dataSize > MAX_RX_PKT_LEN {
        engine.Emit(Released(rx.frame));
        return;
      }
      if wcid < mac.Length {
        var idx := mac[wcid].rec[tid];
        if idx == 0 {
          engine.Emit(Indicate(rx));
          return;
        }
        engine.Arrival(idx, rx, e);
      } else {
        engine.Emit(Released(rx.frame));
      }
    }

    /** A BlockAckReq arrives. Without a session it reaches the reserved entry 0, where nothing waits. */
    method CntlEnqueueForRecv(wcid: nat, tid: nat, start: SeqNo, halted: bool, lengthOk: bool) returns (ok: bool)
      requires Valid()
      modifies engine.Repr
      ensures Valid()
      ensures ok <==> !halted && lengthOk && wcid < mac.Length && tid < NUM_OF_TID
      ensures !ok ==> Untouched()
      ensures ok ==> var i := mac[wcid].rec[tid]; i < rec.Length && engine.Did(i, old(Bar(engine.Sess(i), engine.Free(), start)))
    {
      hide RE.Engine.Valid, RE.Engine.Shape, RE.Engine.Whole, Consistent;
      if halted || !lengthOk || wcid >= mac.Length || tid >= NUM_OF_TID {
        return false;
      }
      SlotFacts(wcid, tid);
      engine.BlockAckReq(mac[wcid].rec[tid], start);
      return true;
    }

    /** The idle timer of a recipient entry. */
    method RecSessionIdleTimeout(entry: nat, expired: bool)
      requires Valid() && entry < rec.Length
      modifies engine.Repr
      ensures Valid()
      ensures engine.Did(entry, old(Idle(engine.Sess(entry), engine.Free(), expired && rec[entry].status.RecAccept?)))
    {
      hide RE.Engine.Valid, RE.Engine.Shape, RE.Engine.Whole, Consistent;
      engine.IdleTimeout(entry, expired && rec[entry].status.RecAccept?);
    }

    /** What the periodic pass leaves in entry j of a station it has handled up to TID tid. */
    ghost function Flushed(j: nat, s: Session, clock: (nat, nat) -> Expiry, w: nat, tid: nat): Session
      reads this, rec
      requires j < rec.Length
    {
      var e := rec[j];
      if e.status.RecAccept? && e.wcid == w && e.tid < tid then Flush(s, 0, clock(w, e.tid)).s else s
    }

    lemma FlushIgnoresFree(s: Session, free: nat, e: Expiry)
      ensures Flush(s, free, e).s == Flush(s, 0, e).s && Flush(s, free, e).out == Flush(s, 0, e).out
      ensures s.buf == [] ==> Flush(s, free, e).s == s
    {
    }

    lemma SlotsPoint()
      requires Consistent(View()) && engine.Valid() && |engine.entries| == rec.Length
      ensures Pointing(engine.Sessions(), mac[..])
    {
      hide Consistent, RE.Engine.Valid;
      var ss, stations := engine.Sessions(), mac[..];
      forall v | 0 <= v < |stations|
        ensures |stations[v].rec| == NUM_OF_TID && forall t :: 0 <= t < NUM_OF_TID ==> stations[v].rec[t] < |ss|
      {
        SlotFacts(v, 0);
        forall t | 0 <= t < NUM_OF_TID ensures stations[v].rec[t] < |ss| {
          SlotFacts(v, t);
        }
      }
    }

    lemma EntryFacts(j: nat)
      requires Consistent(View()) && j < rec.Length
      ensures rec[j].wcid < mac.Length && rec[j].tid < NUM_OF_TID && |mac[rec[j].wcid].rec| == NUM_OF_TID
      ensures rec[j].status.RecAccept? ==> mac[rec[j].wcid].rec[rec[j].tid] == j
    {
      assert RecOk(View(), j);
      assert View().rec[j] == rec[j];
    }

    /** One turn of the inner loop: the session of one TID, or the reserved entry 0, where nothing waits. */
    method MaintainTid(w: nat, tid: nat, e: Expiry)
      requires Valid() && w < mac.Length && tid < NUM_OF_TID && |mac[w].rec| == NUM_OF_TID && mac[w].rec[tid] < rec.Length
      modifies engine.Repr
      ensures Valid()
      ensures forall j {:trigger engine.Sess(j)} :: 0 <= j < rec.Length ==>
        engine.Sess(j) == if j == mac[w].rec[tid] then Flush(old(engine.Sess(j)), 0, e).s else old(engine.Sess(j))
      ensures engine.log == old(engine.log) + Flush(old(engine.Sess(mac[w].rec[tid])), 0, e).out
    {
      hide RE.Engine.Valid, RE.Engine.Shape, RE.Engine.Whole, Consistent, Flush;
      var idx := mac[w].rec[tid];
      FlushIgnoresFree(engine.Sess(idx), engine.Free(), e);
      engine.FlushTimeout(idx, e);
    }

    /** One station's share of the periodic pass. */
    method MaintainStation(w: nat, clock: (nat, nat) -> Expiry)
      requires Valid() && w < mac.Length && Pointing(engine.Sessions(), mac[..])
      modifies engine.Repr
      ensures Valid()
      ensures forall j {:trigger engine.Sess(j)} :: 0 <= j < rec.Length ==>
        engine.Sess(j) == Flushed(j, old(engine.Sess(j)), clock, w, NUM_OF_TID)
      ensures |mac[w].rec| == NUM_OF_TID
      ensures engine.log == old(engine.log) + StationOut(old(engine.Sessions()), mac[w].rec, clock, w, NUM_OF_TID)
    {
      hide RE.Engine.Valid, RE.Engine.Shape, RE.Engine.Whole, Consistent, Flush;
      ghost var ss := engine.Sessions();
      ghost var slots := mac[w].rec;
      assert mac[..][w].rec == slots && |slots| == NUM_OF_TID && slots[0] < |ss| by { SlotFacts(w, 0); }
      for tid := 0 to NUM_OF_TID
        invariant Valid()
        invariant forall j {:trigger engine.Sess(j)} :: 0 <= j < rec.Length ==>
          engine.Sess(j) == Flushed(j, old(engine.Sess(j)), clock, w, tid)
        invariant engine.log == old(engine.log) + StationOut(ss, slots, clock, w, tid)
      {
        SlotFacts(w, tid);
        label Before:
        FlushIgnoresFree(engine.Sess(0), 0, clock(w, tid));
        MaintainTid(w, tid, clock(w, tid));
        forall j {:trigger engine.Sess(j)} | 0 <= j < rec.Length
          ensures engine.Sess(j) == Flushed(j, old(engine.Sess(j)), clock, w, tid + 1)
        {
          EntryFacts(j);
          assert j != slots[tid] ==> engine.Sess(j) == old@Before(engine.Sess(j));
        }
        assert old@Before(engine.Sess(slots[tid])) == ss[slots[tid]];
      }
      forall j | 0 <= j < rec.Length ensures rec[j].status.RecAccept? ==> rec[j].tid < NUM_OF_TID {
        EntryFacts(j);
      }
    }

    /** The periodic pass over all stations but station 0: every session of a station that is present
        gets its timeout flush, as the clock says for it, and what the flushes release goes up in that
        order; the others stay as they are. */
    method BaReOrderingBufferMaintain(present: set<nat>, clock: (nat, nat) -> Expiry)
      requires Valid()
      modifies engine.Repr
      ensures Valid()
      ensures forall j {:trigger engine.Sess(j)} :: 0 <= j < rec.Length ==>
        var e := rec[j];
        engine.Sess(j) == if e.status.RecAccept? && e.wcid in present && 1 <= e.wcid then Flush(old(engine.Sess(j)), 0, clock(e.wcid, e.tid)).s
                          else old(engine.Sess(j))
      ensures Pointing(old(engine.Sessions()), mac[..])
      ensures engine.log == old(engine.log) + PassOut(old(engine.Sessions()), mac[..], present, clock, mac.Length)
    {
      hide RE.Engine.Valid, RE.Engine.Shape, RE.Engine.Whole, Consistent, Flush, Pointing;
      SlotsPoint();
      ghost var ss := engine.Sessions();
      for w := 1 to mac.Length
        invariant Valid()
        invariant forall j {:trigger engine.Sess(j)} :: 0 <= j < rec.Length ==>
          var e := rec[j];
          engine.Sess(j) == if e.status.RecAccept? && e.wcid in present && 1 <= e.wcid < w then Flush(old(engine.Sess(j)), 0, clock(e.wcid, e.tid)).s
                            else old(engine.Sess(j))
        invariant engine.log == old(engine.log) + PassOut(ss, mac[..], present, clock, w)
      {
        if w in present {
          forall j | 0 <= j < rec.Length ensures rec[j].status.RecAccept? ==> rec[j].tid < NUM_OF_TID {
            EntryFacts(j);
          }
          SlotsPoint();
          ghost var now := engine.Sessions();
          MaintainStation(w, clock);
          forall t | 0 <= t < NUM_OF_TID ensures mac[w].rec[t] < |ss| && now[mac[w].rec[t]] == ss[mac[w].rec[t]] {
            SlotFacts(w, t);
          }
          SameStationOut(ss, now, mac[w].rec, clock, w, NUM_OF_TID);
          assert mac[..][w] == mac[w];
        }
      }
      forall j | 0 <= j < rec.Length ensures rec[j].status.RecAccept? ==> rec[j].wcid < mac.Length {
        EntryFacts(j);
      }
    }

    // ---------- unloading ----------

    /** Everything that waits in the first k sessions. */
    ghost function Waiting(k: nat): seq<Frame>
      reads engine, engine.Repr
      requires engine.Valid() && k <= |engine.entries|
    {
      if k == 0 then [] else Waiting(k - 1) + engine.Sess(k - 1).buf
    }

    /** One entry's share of the unloading; where there is no session, nothing waits. */
    method ReleaseEntry(i: nat)
      requires Valid() && i < rec.Length
      modifies engine.Repr
      ensures Valid()
      ensures forall j {:trigger engine.Sess(j)} :: 0 <= j < rec.Length ==>
        engine.Sess(j) == if j == i then old(engine.Sess(j)).(buf := []) else old(engine.Sess(j))
      ensures engine.log == old(engine.log) + Discard(old(engine.Sess(i).buf))
    {
      hide RE.Engine.Valid, RE.Engine.Shape, RE.Engine.Whole, Consistent;
      if !rec[i].status.RecNone? {
        engine.ReleasePending(i);
      } else {
        assert engine.log == engine.log + Discard([]);
      }
    }

    lemma DiscardMore(fs: seq<Frame>, gs: seq<Frame>)
      ensures Discard(fs + gs) == Discard(fs) + Discard(gs)
    {
    }

    /** The driver unloads: everything that waits anywhere is released, and nothing waits any more. */
    method ResourceRelease()
      requires Valid()
      modifies engine.Repr
      ensures Valid()
      ensures forall j {:trigger engine.Sess(j)} :: 0 <= j < rec.Length ==> engine.Sess(j) == old(engine.Sess(j)).(buf := [])
      ensures engine.log == old(engine.log) + Discard(old(Waiting(rec.Length)))
    {
      hide RE.Engine.Valid, RE.Engine.Shape, RE.Engine.Whole, Consistent, Discard;
      assert engine.log == old(engine.log) + Discard([]);
      for i := 0 to rec.Length
        invariant Valid()
        invariant forall j {:trigger engine.Sess(j)} :: 0 <= j < rec.Length ==>
          engine.Sess(j) == if j < i then old(engine.Sess(j)).(buf := []) else old(engine.Sess(j))
        invariant engine.log == old(engine.log) + Discard(old(Waiting(i)))
      {
        DiscardMore(old(Waiting(i)), engine.Sess(i).buf);
        ReleaseEntry(i);
      }
    }
  }
}
