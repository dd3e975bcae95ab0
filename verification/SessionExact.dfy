/** What the session tables are for: for every station and TID, where the agreement stands in each
    direction. Each operation moves one of these states and leaves all others. */
module SessionExact {
  import opened SessionSpec

  /** As originator: nothing, asked so many times for a window, or agreed on one. */
  datatype Asking = Idle | Asked(win: nat, times: nat) | Agreed(win: nat)

  /** One station and TID: as originator, as recipient, and whether a request was declined. */
  datatype Standing = Standing(asking: Asking, accepted: bool, declined: bool)

  ghost function At(t: Tables, w: nat, d: nat): Standing
    requires Consistent(t) && w < |t.mac| && d < NUM_OF_TID
  {
    assert SlotOk(t, w, d);
    var m := t.mac[w];
    var i := m.ori[d];
    Standing(if i == 0 then Idle
             else if t.ori[i].status.OriDone? then Agreed(t.ori[i].win)
             else Asked(t.ori[i].win, t.ori[i].token),
             m.rec[d] != 0, d in m.declined)
  }

  /** From t to r only the standing of station w and TID d may have changed, and it is now s. */
  ghost predicate Moves(t: Tables, r: Tables, w: nat, d: nat, s: Standing)
    requires Consistent(t) && w < |t.mac| && d < NUM_OF_TID
  {
    && Consistent(r) && |r.mac| == |t.mac| && |r.ori| == |t.ori| && |r.rec| == |t.rec|
    && At(r, w, d) == s
    && forall v, e :: 0 <= v < |t.mac| && 0 <= e < NUM_OF_TID && (v != w || e != d) ==> At(r, v, e) == At(t, v, e)
  }

  lemma StaysAt(t: Tables, w: nat, d: nat)
    requires Consistent(t) && w < |t.mac| && d < NUM_OF_TID
    ensures Moves(t, t, w, d, At(t, w, d))
  {
  }

  /** Two slots never name one entry. */
  lemma SlotsApart(t: Tables, w: nat, d: nat, v: nat, e: nat)
    requires Consistent(t) && w < |t.mac| && d < NUM_OF_TID && v < |t.mac| && e < NUM_OF_TID && (v != w || e != d)
    ensures t.mac[w].ori[d] != 0 ==> t.mac[v].ori[e] != t.mac[w].ori[d]
    ensures t.mac[w].rec[d] != 0 ==> t.mac[v].rec[e] != t.mac[w].rec[d]
  {
    hide CountOri, CountDone, CountRec;
    assert SlotOk(t, w, d) && SlotOk(t, v, e);
  }

  /** A set-up that is permitted asks once, if nothing is going on yet and an entry is left; any other
      changes nothing. */
  lemma SetUpAsks(t: Tables, wcid: nat, tid: nat, permitted: bool, limit: nat)
    requires Consistent(t) && wcid < |t.mac| && tid < NUM_OF_TID
    ensures var s := At(t, wcid, tid);
      Moves(t, OriSetUp(t, wcid, tid, permitted, limit), wcid, tid,
            if s.asking.Idle? && permitted && t.numAsOriginator < |t.ori| - 1 then s.(asking := Asked(limit, 1)) else s)
  {
    hide CountOri, CountDone, CountRec;
    var r := OriSetUp(t, wcid, tid, permitted, limit);
    OriSetUpKeeps(t, wcid, tid, permitted, limit);
    OriScanFindsIffGuardPasses(t);
    assert SlotOk(t, wcid, tid);
    forall v, e | 0 <= v < |t.mac| && 0 <= e < NUM_OF_TID && (v != wcid || e != tid) ensures At(r, v, e) == At(t, v, e) {
      assert SlotOk(t, v, e);
    }
  }

  /** The peer's agreement turns an open request into a session with the agreed window; without an open
      request it is ignored. */
  lemma AgreementAnswers(t: Tables, wcid: nat, tid: nat, bufSize: nat, cap: nat)
    requires Consistent(t) && wcid < |t.mac| && tid < NUM_OF_TID
    ensures var s := At(t, wcid, tid);
      Moves(t, OriAdd(t, wcid, tid, bufSize, cap), wcid, tid,
            if s.asking.Asked? then s.(asking := Agreed(AgreedWindow(s.asking.win, bufSize, cap))) else s)
  {
    hide CountOri, CountDone, CountRec, AgreedWindow;
    var r := OriAdd(t, wcid, tid, bufSize, cap);
    OriAddKeeps(t, wcid, tid, bufSize, cap);
    assert SlotOk(t, wcid, tid);
    forall v, e | 0 <= v < |t.mac| && 0 <= e < NUM_OF_TID && (v != wcid || e != tid) ensures At(r, v, e) == At(t, v, e) {
      assert SlotOk(t, v, e);
      SlotsApart(t, wcid, tid, v, e);
    }
  }

  /** Freeing an entry ends what its station and TID had as originator. */
  lemma FreeEnds(t: Tables, i: nat)
    requires Consistent(t) && 0 < i < |t.ori| && !t.ori[i].status.OriNone?
    ensures t.ori[i].wcid < |t.mac| && t.ori[i].tid < NUM_OF_TID
    ensures Moves(t, OriFree(t, i), t.ori[i].wcid, t.ori[i].tid, At(t, t.ori[i].wcid, t.ori[i].tid).(asking := Idle))
  {
    hide CountOri, CountDone, CountRec;
    var r := OriFree(t, i);
    var w, d := t.ori[i].wcid, t.ori[i].tid;
    OriFreeKeeps(t, i);
    assert OriOk(t, i) && SlotOk(t, w, d);
    forall v, e | 0 <= v < |t.mac| && 0 <= e < NUM_OF_TID && (v != w || e != d) ensures At(r, v, e) == At(t, v, e) {
      assert SlotOk(t, v, e);
      SlotsApart(t, w, d, v, e);
    }
  }

  /** A tear-down as originator ends it, unless a session is agreed, the peer is to be told, and the
      notice cannot be allocated. */
  lemma OriTearDownEnds(t: Tables, wcid: nat, tid: nat, passive: bool, memory: bool)
    requires Consistent(t) && wcid < |t.mac| && tid < NUM_OF_TID
    ensures var s := At(t, wcid, tid);
      Moves(t, OriTearDown(t, wcid, tid, passive, memory), wcid, tid,
            if s.asking.Agreed? && !passive && !memory then s else s.(asking := Idle))
  {
    hide CountOri, CountDone, CountRec, OriFree, Moves;
    assert SlotOk(t, wcid, tid);
    var i := t.mac[wcid].ori[tid];
    if i == 0 || (!passive && t.ori[i].status.OriDone? && !memory) {
      StaysAt(t, wcid, tid);
    } else {
      FreeEnds(t, i);
    }
  }

  /** The set-up timer of an open request asks again, unless a scan is on, up to eight times; then, and
      for any other entry, it ends what the station and TID of the entry have. */
  lemma TimerAsksAgain(t: Tables, i: nat, scanning: bool)
    requires Consistent(t) && i < |t.ori|
    ensures var (w, d) := (t.ori[i].wcid, t.ori[i].tid);
      && w < |t.mac| && d < NUM_OF_TID
      && var s := At(t, w, d);
      && (t.ori[i].status.OriWaitRes? ==> s.asking == Asked(t.ori[i].win, t.ori[i].token))
      && Moves(t, OriTimeout(t, i, scanning), w, d,
            if t.ori[i].status.OriWaitRes? && s.asking.times < 8
            then (if scanning then s else s.(asking := Asked(s.asking.win, s.asking.times + 1)))
            else s.(asking := Idle))
  {
    hide CountOri, CountDone, CountRec, OriFree, Moves;
    var (w, d) := (t.ori[i].wcid, t.ori[i].tid);
    assert SlotOk(t, w, d) && OriOk(t, i);
    var k := t.mac[w].ori[d];
    if t.ori[i].status.OriWaitRes? && t.ori[i].token < ORI_SESSION_MAX_RETRY {
      if scanning { StaysAt(t, w, d); } else { AskedAgain(t, i); }
    } else if k != 0 {
      FreeEnds(t, k);
    } else {
      FreeNothing(t);
      StaysAt(t, w, d);
    }
  }

  lemma FreeNothing(t: Tables)
    requires Consistent(t)
    ensures OriFree(t, 0) == t
  {
  }

  lemma AskedAgain(t: Tables, i: nat)
    requires Consistent(t) && i < |t.ori| && t.ori[i].status.OriWaitRes? && t.ori[i].token < ORI_SESSION_MAX_RETRY
    ensures t.ori[i].wcid < |t.mac| && t.ori[i].tid < NUM_OF_TID
    ensures var (w, d) := (t.ori[i].wcid, t.ori[i].tid);
      Moves(t, OriTimeout(t, i, false), w, d, At(t, w, d).(asking := Asked(t.ori[i].win, t.ori[i].token + 1)))
  {
    hide CountOri, CountDone, CountRec;
    var (w, d) := (t.ori[i].wcid, t.ori[i].tid);
    var r := OriTimeout(t, i, false);
    OriTimeoutKeeps(t, i, false);
    assert SlotOk(t, w, d) && OriOk(t, i);
    forall v, e | 0 <= v < |t.mac| && 0 <= e < NUM_OF_TID && (v != w || e != d) ensures At(r, v, e) == At(t, v, e) {
      assert SlotOk(t, v, e);
      SlotsApart(t, w, d, v, e);
    }
  }

  /** A request of the peer is accepted if it was already, or an entry is left; acceptance takes back
      an earlier refusal. */
  lemma RequestAccepted(t: Tables, wcid: nat, tid: nat)
    requires Consistent(t) && wcid < |t.mac| && tid < NUM_OF_TID
    ensures var (r, i) := RecAdd(t, wcid, tid); var s := At(t, wcid, tid);
      && (i != 0 <==> s.accepted || t.numAsRecipient < |t.rec| - 1)
      && Moves(t, r, wcid, tid, if i != 0 then s.(accepted := true, declined := false) else s)
      && (i != 0 ==> r.mac[wcid].rec[tid] == i)
  {
    hide CountOri, CountDone, CountRec;
    var r := RecAdd(t, wcid, tid).0;
    RecAddKeeps(t, wcid, tid);
    RecScanFindsIffGuardPasses(t);
    assert SlotOk(t, wcid, tid);
    forall v, e | 0 <= v < |t.mac| && 0 <= e < NUM_OF_TID && (v != wcid || e != tid) ensures At(r, v, e) == At(t, v, e) {
      assert SlotOk(t, v, e);
    }
  }

  lemma RemoveEnds(t: Tables, i: nat)
    requires Consistent(t) && 0 < i < |t.rec| && !t.rec[i].status.RecNone?
    ensures t.rec[i].wcid < |t.mac| && t.rec[i].tid < NUM_OF_TID
    ensures Moves(t, RecRemove(t, i), t.rec[i].wcid, t.rec[i].tid, At(t, t.rec[i].wcid, t.rec[i].tid).(accepted := false))
  {
    hide CountOri, CountDone, CountRec;
    var r := RecRemove(t, i);
    var w, d := t.rec[i].wcid, t.rec[i].tid;
    RecRemoveKeeps(t, i);
    assert RecOk(t, i) && SlotOk(t, w, d);
    forall v, e | 0 <= v < |t.mac| && 0 <= e < NUM_OF_TID && (v != w || e != d) ensures At(r, v, e) == At(t, v, e) {
      assert SlotOk(t, v, e);
    }
  }

  /** A tear-down as recipient ends the session, unless the peer is to be told and the notice cannot be
      allocated. */
  lemma RecTearDownEnds(t: Tables, wcid: nat, tid: nat, passive: bool, memory: bool)
    requires Consistent(t) && wcid < |t.mac| && tid < NUM_OF_TID
    ensures var s := At(t, wcid, tid);
      Moves(t, RecTearDown(t, wcid, tid, passive, memory), wcid, tid,
            if !passive && !memory then s else s.(accepted := false))
  {
    hide CountOri, CountDone, CountRec, RecRemove, Moves;
    assert SlotOk(t, wcid, tid);
    if t.mac[wcid].rec[tid] == 0 || (!passive && !memory) {
      StaysAt(t, wcid, tid);
    } else {
      RemoveEnds(t, t.mac[wcid].rec[tid]);
    }
  }
}
