/** The Block Ack session tables as values: originator and recipient entries, the per-station index
    arrays and bitmaps that name them, and the counters. Every operation is a step function, and
    every step keeps the tables consistent. */
module SessionSpec {

  const NUM_OF_TID: nat := 8
  const ORI_SESSION_MAX_RETRY: nat := 8

  datatype OriStatus = OriNone | OriUsed | OriWaitRes | OriDone
  datatype RecStatus = RecNone | RecUsed | RecHandleRes | RecAccept

  /** BA_ORI_ENTRY */
  datatype OriEntry = OriEntry(status: OriStatus, wcid: nat, tid: nat, win: nat, token: nat)

  /** The session half of BA_REC_ENTRY; the reordering half lives in the reorder engine. */
  datatype RecEntry = RecEntry(status: RecStatus, wcid: nat, tid: nat)

  /** The Block Ack part of a station entry. An index 0 means no session. */
  datatype Station = Station(ori: seq<nat>, rec: seq<nat>, tx: set<nat>, rx: set<nat>, declined: set<nat>)

  datatype Tables = Tables(ori: seq<OriEntry>, rec: seq<RecEntry>, mac: seq<Station>,
                           numAsRecipient: int, numAsOriginator: int, numDoneOriginator: int)

  // ---------- counting ----------

  function CountOri(es: seq<OriEntry>): nat {
    if es == [] then 0 else (if es[0].status.OriNone? then 0 else 1) + CountOri(es[1..])
  }

  function CountDone(es: seq<OriEntry>): nat {
    if es == [] then 0 else (if es[0].status.OriDone? then 1 else 0) + CountDone(es[1..])
  }

  function CountRec(es: seq<RecEntry>): nat {
    if es == [] then 0 else (if es[0].status.RecNone? then 0 else 1) + CountRec(es[1..])
  }

  // ---------- consistency ----------

  ghost predicate Shaped(t: Tables) {
    && 0 < |t.ori| && 0 < |t.rec|
    && t.ori[0].status.OriNone? && t.rec[0].status.RecNone?
    && (forall w :: 0 <= w < |t.mac| ==> |t.mac[w].ori| == NUM_OF_TID && |t.mac[w].rec| == NUM_OF_TID)
    && (forall i :: 0 <= i < |t.ori| ==> t.ori[i].wcid < |t.mac| && t.ori[i].tid < NUM_OF_TID)
    && (forall i :: 0 <= i < |t.rec| ==> t.rec[i].wcid < |t.mac| && t.rec[i].tid < NUM_OF_TID)
  }

  /** What the index slots and bitmap bits of station w name for TID d: an entry in use that names
      them back; and a bit is set exactly for an agreed session. */
  ghost predicate SlotOk(t: Tables, w: nat, d: nat)
    requires Shaped(t) && w < |t.mac| && d < NUM_OF_TID
  {
    var m := t.mac[w];
    var (i, j) := (m.ori[d], m.rec[d]);
    && (i != 0 ==> i < |t.ori| && (t.ori[i].status.OriWaitRes? || t.ori[i].status.OriDone?) && t.ori[i].wcid == w && t.ori[i].tid == d)
    && (j != 0 ==> j < |t.rec| && t.rec[j].status.RecAccept? && t.rec[j].wcid == w && t.rec[j].tid == d)
    && (d in m.tx <==> i != 0 && t.ori[i].status.OriDone?)
    && (d in m.rx <==> j != 0)
  }

  /** An originator entry in use is named by the slot it names. */
  ghost predicate OriOk(t: Tables, i: nat)
    requires Shaped(t) && i < |t.ori|
  {
    !t.ori[i].status.OriNone? ==> t.mac[t.ori[i].wcid].ori[t.ori[i].tid] == i
  }

  ghost predicate RecOk(t: Tables, i: nat)
    requires Shaped(t) && i < |t.rec|
  {
    !t.rec[i].status.RecNone? ==> t.mac[t.rec[i].wcid].rec[t.rec[i].tid] == i
  }

  ghost predicate Consistent(t: Tables) {
    && Shaped(t)
    && (forall w, d :: 0 <= w < |t.mac| && 0 <= d < NUM_OF_TID ==> SlotOk(t, w, d))
    && (forall i :: 0 <= i < |t.ori| ==> OriOk(t, i))
    && (forall i :: 0 <= i < |t.rec| ==> RecOk(t, i))
    && t.numAsOriginator == CountOri(t.ori)
    && t.numDoneOriginator == CountDone(t.ori)
    && t.numAsRecipient == CountRec(t.rec)
  }

  // ---------- originator steps ----------

  /** The first free entry from i on, or the table size. */
  function FirstFreeOri(es: seq<OriEntry>, i: nat): (k: nat)
    requires i <= |es|
    ensures i <= k <= |es| && (k < |es| ==> es[k].status.OriNone?)
    ensures forall j :: i <= j < k ==> !es[j].status.OriNone?
    decreases |es| - i
  {
    if i == |es| || es[i].status.OriNone? then i else FirstFreeOri(es, i + 1)
  }

  function FirstFreeRec(es: seq<RecEntry>, i: nat): (k: nat)
    requires i <= |es|
    ensures i <= k <= |es| && (k < |es| ==> es[k].status.RecNone?)
    ensures forall j :: i <= j < k ==> !es[j].status.RecNone?
    decreases |es| - i
  {
    if i == |es| || es[i].status.RecNone? then i else FirstFreeRec(es, i + 1)
  }

  /** Ask for a session as originator. permitted: automatic or forced, and the station transmits HT. */
  ghost function OriSetUp(t: Tables, wcid: nat, tid: nat, permitted: bool, limit: nat): Tables
    requires Consistent(t) && wcid < |t.mac|
  {
    if tid >= NUM_OF_TID || !permitted then t
    else if t.mac[wcid].ori[tid] != 0 then t
    else if t.numAsOriginator >= |t.ori| - 1 then t
    else
      var i := FirstFreeOri(t.ori, 1);
      if i == |t.ori| then t
      else t.(ori := t.ori[i := OriEntry(OriWaitRes, wcid, tid, limit, 1)],
              mac := t.mac[wcid := t.mac[wcid].(ori := t.mac[wcid].ori[tid := i])],
              numAsOriginator := t.numAsOriginator + 1)
  }

  /** The peer agreed. cap is what the chip and the peer's receiver allow. */
  ghost function OriAdd(t: Tables, wcid: nat, tid: nat, bufSize: nat, cap: nat): Tables
    requires Consistent(t) && wcid < |t.mac| && tid < NUM_OF_TID
  {
    assert SlotOk(t, wcid, tid);
    var i := t.mac[wcid].ori[tid];
    if i != 0 && t.ori[i].tid == tid && t.ori[i].status.OriWaitRes? then
      t.(ori := t.ori[i := t.ori[i].(status := OriDone, win := AgreedWindow(t.ori[i].win, bufSize, cap))],
         mac := t.mac[wcid := t.mac[wcid].(tx := t.mac[wcid].tx + {tid})],
         numDoneOriginator := t.numDoneOriginator + 1)
    else t
  }

  function Min(a: nat, b: nat): nat { if a < b then a else b }

  /** One less than the peer's buffer (a byte), within what was asked and what is allowed. */
  function AgreedWindow(asked: nat, bufSize: nat, cap: nat): (w: nat)
    ensures w <= asked && w <= cap
    ensures bufSize % 256 == 0 ==> w == 0
    ensures bufSize % 256 > 0 ==> w < bufSize % 256 && (w == asked || w == cap || w == bufSize % 256 - 1)
  {
    var peer := if bufSize % 256 > 0 then bufSize % 256 - 1 else 0;
    Min(Min(asked, peer), cap)
  }

  ghost function OriFree(t: Tables, i: nat): Tables
    requires Consistent(t)
  {
    if i == 0 || i >= |t.ori| || t.ori[i].status.OriNone? then t
    else
      var e := t.ori[i];
      var m := t.mac[e.wcid];
      t.(ori := t.ori[i := e.(status := OriNone, token := 0)],
         mac := t.mac[e.wcid := m.(ori := m.ori[e.tid := 0], tx := if e.status.OriDone? then m.tx - {e.tid} else m.tx)],
         numDoneOriginator := t.numDoneOriginator - (if e.status.OriDone? then 1 else 0),
         numAsOriginator := t.numAsOriginator - 1)
  }

  /** memory: the notice to the peer could be allocated. */
  ghost function OriTearDown(t: Tables, wcid: nat, tid: nat, passive: bool, memory: bool): Tables
    requires Consistent(t) && tid < NUM_OF_TID
  {
    if wcid >= |t.mac| then t
    else
      assert SlotOk(t, wcid, tid);
      var i := t.mac[wcid].ori[tid];
      if i == 0 then t
      else if !passive && t.ori[i].status.OriDone? && !memory then t
      else OriFree(t, i)
  }

  /** The set-up timer of entry i. scanning: a scan is in progress, try again later. */
  ghost function OriTimeout(t: Tables, i: nat, scanning: bool): Tables
    requires Consistent(t) && i < |t.ori|
  {
    var e := t.ori[i];
    if e.status.OriWaitRes? && e.token < ORI_SESSION_MAX_RETRY then
      if scanning then t else t.(ori := t.ori[i := e.(token := e.token + 1)])
    else OriFree(t, t.mac[e.wcid].ori[e.tid])
  }

  // ---------- recipient steps ----------

  /** A peer asks for a session with us as recipient. */
  ghost function RecAdd(t: Tables, wcid: nat, tid: nat): (r: (Tables, nat))
    requires Consistent(t) && wcid < |t.mac| && tid < NUM_OF_TID
  {
    var m := t.mac[wcid];
    if m.rec[tid] != 0 then (t.(mac := t.mac[wcid := m.(declined := m.declined - {tid})]), m.rec[tid])
    else if t.numAsRecipient >= |t.rec| - 1 then (t, 0)
    else
      var i := FirstFreeRec(t.rec, 1);
      if i == |t.rec| then (t, 0)
      else (t.(rec := t.rec[i := RecEntry(RecAccept, wcid, tid)],
               mac := t.mac[wcid := m.(rec := m.rec[tid := i], rx := m.rx + {tid}, declined := m.declined - {tid})],
               numAsRecipient := t.numAsRecipient + 1), i)
  }

  /** Removal frees entry i and no other. */
  lemma RecRemoveTakes(t: Tables, i: nat)
    requires Consistent(t) && 0 < i < |t.rec| && !t.rec[i].status.RecNone?
    ensures var r := RecRemove(t, i);
      |r.rec| == |t.rec| && r.rec[i].status.RecNone? && r != t && forall j :: 0 <= j < |t.rec| && j != i ==> r.rec[j] == t.rec[j]
  {
  }

  /** Writing entry and slot again for a session already in place changes only the declined bit. */
  lemma RecAddAgain(t: Tables, wcid: nat, tid: nat)
    requires Consistent(t) && wcid < |t.mac| && tid < NUM_OF_TID && t.mac[wcid].rec[tid] != 0
    ensures var m := t.mac[wcid];
      var i := m.rec[tid];
      i < |t.rec| &&
      RecAdd(t, wcid, tid).0 == t.(rec := t.rec[i := RecEntry(RecAccept, wcid, tid)],
        mac := t.mac[wcid := m.(rx := m.rx + {tid}, rec := m.rec[tid := i], declined := m.declined - {tid})])
  {
    assert SlotOk(t, wcid, tid);
    var m := t.mac[wcid];
    assert m.rx + {tid} == m.rx;
    assert m.rec[tid := m.rec[tid]] == m.rec;
    assert t.rec[m.rec[tid] := RecEntry(RecAccept, wcid, tid)] == t.rec;
  }

  /** What the teardown's erasing and BATableFreeRecEntry do together. */
  ghost function RecRemove(t: Tables, i: nat): Tables
    requires Consistent(t)
  {
    if i == 0 || i >= |t.rec| || t.rec[i].status.RecNone? then t
    else
      var e := t.rec[i];
      var m := t.mac[e.wcid];
      t.(rec := t.rec[i := e.(status := RecNone)],
         mac := t.mac[e.wcid := m.(rec := m.rec[e.tid := 0], rx := m.rx - {e.tid})],
         numAsRecipient := t.numAsRecipient - 1)
  }

  ghost function RecTearDown(t: Tables, wcid: nat, tid: nat, passive: bool, memory: bool): Tables
    requires Consistent(t) && tid < NUM_OF_TID
  {
    if wcid >= |t.mac| || t.mac[wcid].rec[tid] == 0 || (!passive && !memory) then t
    else RecRemove(t, t.mac[wcid].rec[tid])
  }

  // ---------- counting lemmas ----------

  lemma {:induction false} CountOriUpdate(es: seq<OriEntry>, i: nat, e: OriEntry)
    requires i < |es|
    ensures CountOri(es[i := e]) == CountOri(es) - (if es[i].status.OriNone? then 0 else 1) + (if e.status.OriNone? then 0 else 1)
    ensures CountDone(es[i := e]) == CountDone(es) - (if es[i].status.OriDone? then 1 else 0) + (if e.status.OriDone? then 1 else 0)
  {
    if i == 0 {
      assert es[0 := e][1..] == es[1..];
    } else {
      assert es[i := e][1..] == es[1..][i - 1 := e];
      CountOriUpdate(es[1..], i - 1, e);
    }
  }

  lemma {:induction false} CountRecUpdate(es: seq<RecEntry>, i: nat, e: RecEntry)
    requires i < |es|
    ensures CountRec(es[i := e]) == CountRec(es) - (if es[i].status.RecNone? then 0 else 1) + (if e.status.RecNone? then 0 else 1)
  {
    if i == 0 {
      assert es[0 := e][1..] == es[1..];
    } else {
      assert es[i := e][1..] == es[1..][i - 1 := e];
      CountRecUpdate(es[1..], i - 1, e);
    }
  }

  lemma {:induction false} CountOriBounds(es: seq<OriEntry>)
    ensures CountOri(es) <= |es|
    ensures CountOri(es) == |es| <==> forall i :: 0 <= i < |es| ==> !es[i].status.OriNone?
    ensures CountDone(es) <= CountOri(es)
  {
    if es != [] {
      CountOriBounds(es[1..]);
      assert forall i :: 0 < i < |es| ==> es[i] == es[1..][i - 1];
    }
  }

  lemma {:induction false} CountRecBounds(es: seq<RecEntry>)
    ensures CountRec(es) <= |es|
    ensures CountRec(es) == |es| <==> forall i :: 0 <= i < |es| ==> !es[i].status.RecNone?
  {
    if es != [] {
      CountRecBounds(es[1..]);
      assert forall i :: 0 < i < |es| ==> es[i] == es[1..][i - 1];
    }
  }

  lemma {:induction false} CountOriNone(es: seq<OriEntry>)
    requires forall i :: 0 <= i < |es| ==> es[i].status.OriNone?
    ensures CountOri(es) == 0 && CountDone(es) == 0
  {
    if es != [] {
      CountOriNone(es[1..]);
    }
  }

  lemma {:induction false} CountRecNone(es: seq<RecEntry>)
    requires forall i :: 0 <= i < |es| ==> es[i].status.RecNone?
    ensures CountRec(es) == 0
  {
    if es != [] {
      CountRecNone(es[1..]);
    }
  }

  /** Tables without any session are consistent. */
  lemma EmptyIsConsistent(t: Tables)
    requires Shaped(t)
    requires t.numAsOriginator == t.numAsRecipient == t.numDoneOriginator == 0
    requires forall i :: 0 <= i < |t.ori| ==> t.ori[i].status.OriNone?
    requires forall i :: 0 <= i < |t.rec| ==> t.rec[i].status.RecNone?
    requires forall w :: 0 <= w < |t.mac| ==> t.mac[w].tx == {} && t.mac[w].rx == {}
    requires forall w, d :: 0 <= w < |t.mac| && 0 <= d < NUM_OF_TID ==> t.mac[w].ori[d] == 0 && t.mac[w].rec[d] == 0
    ensures Consistent(t)
  {
    CountOriNone(t.ori);
    CountRecNone(t.rec);
  }

  /** The allocation guard and the scan agree: the scan fails exactly when the guard forbids it. */
  lemma OriScanFindsIffGuardPasses(t: Tables)
    requires Consistent(t)
    ensures t.numAsOriginator < |t.ori| - 1 <==> FirstFreeOri(t.ori, 1) < |t.ori|
  {
    CountOriBounds(t.ori[1..]);
    if FirstFreeOri(t.ori, 1) == |t.ori| {
      assert forall i :: 0 <= i < |t.ori[1..]| ==> t.ori[1..][i] == t.ori[i + 1];
    } else {
      var k := FirstFreeOri(t.ori, 1);
      assert t.ori[1..][k - 1].status.OriNone?;
    }
  }

  lemma RecScanFindsIffGuardPasses(t: Tables)
    requires Consistent(t)
    ensures t.numAsRecipient < |t.rec| - 1 <==> FirstFreeRec(t.rec, 1) < |t.rec|
  {
    CountRecBounds(t.rec[1..]);
    if FirstFreeRec(t.rec, 1) == |t.rec| {
      assert forall i :: 0 <= i < |t.rec[1..]| ==> t.rec[1..][i] == t.rec[i + 1];
    } else {
      var k := FirstFreeRec(t.rec, 1);
      assert t.rec[1..][k - 1].status.RecNone?;
    }
  }

  // ---------- every step keeps the tables consistent ----------

  lemma OriSetUpKeeps(t: Tables, wcid: nat, tid: nat, permitted: bool, limit: nat)
    requires Consistent(t) && wcid < |t.mac|
    ensures Consistent(OriSetUp(t, wcid, tid, permitted, limit))
  {
    hide CountOri, CountDone, CountRec, FirstFreeOri;
    var i := FirstFreeOri(t.ori, 1);
    var r := OriSetUp(t, wcid, tid, permitted, limit);
    if r != t {
      CountOriUpdate(t.ori, i, OriEntry(OriWaitRes, wcid, tid, limit, 1));
      forall w, d | 0 <= w < |r.mac| && 0 <= d < NUM_OF_TID ensures SlotOk(r, w, d) {
        assert SlotOk(t, w, d);
      }
      forall k | 0 <= k < |r.ori| ensures OriOk(r, k) {
        assert OriOk(t, k);
      }
      forall k | 0 <= k < |r.rec| ensures RecOk(r, k) {
        assert RecOk(t, k);
      }
    }
  }

  lemma OriAddKeeps(t: Tables, wcid: nat, tid: nat, bufSize: nat, cap: nat)
    requires Consistent(t) && wcid < |t.mac| && tid < NUM_OF_TID
    ensures Consistent(OriAdd(t, wcid, tid, bufSize, cap)) && |OriAdd(t, wcid, tid, bufSize, cap).ori| == |t.ori|
  {
    hide CountOri, CountDone, CountRec, AgreedWindow;
    assert SlotOk(t, wcid, tid);
    var i := t.mac[wcid].ori[tid];
    var r := OriAdd(t, wcid, tid, bufSize, cap);
    if r != t {
      CountOriUpdate(t.ori, i, t.ori[i].(status := OriDone, win := AgreedWindow(t.ori[i].win, bufSize, cap)));
      forall w, d | 0 <= w < |r.mac| && 0 <= d < NUM_OF_TID ensures SlotOk(r, w, d) {
        assert SlotOk(t, w, d);
      }
      forall k | 0 <= k < |r.ori| ensures OriOk(r, k) {
        assert OriOk(t, k);
      }
      forall k | 0 <= k < |r.rec| ensures RecOk(r, k) {
        assert RecOk(t, k);
      }
    }
  }

  lemma OriFreeKeeps(t: Tables, i: nat)
    requires Consistent(t)
    ensures Consistent(OriFree(t, i))
  {
    hide CountOri, CountDone, CountRec;
    var r := OriFree(t, i);
    if r != t {
      CountOriUpdate(t.ori, i, t.ori[i].(status := OriNone, token := 0));
      assert OriOk(t, i);
      forall w, d | 0 <= w < |r.mac| && 0 <= d < NUM_OF_TID ensures SlotOk(r, w, d) {
        assert SlotOk(t, w, d);
      }
      forall k | 0 <= k < |r.ori| ensures OriOk(r, k) {
        assert OriOk(t, k);
      }
      forall k | 0 <= k < |r.rec| ensures RecOk(r, k) {
        assert RecOk(t, k);
      }
    }
  }

  lemma OriTimeoutKeeps(t: Tables, i: nat, scanning: bool)
    requires Consistent(t) && i < |t.ori|
    ensures Consistent(OriTimeout(t, i, scanning))
  {
    hide CountOri, CountDone, CountRec, OriFree;
    var e := t.ori[i];
    OriFreeKeeps(t, t.mac[e.wcid].ori[e.tid]);
    CountOriUpdate(t.ori, i, e.(token := e.token + 1));
    var r := t.(ori := t.ori[i := e.(token := e.token + 1)]);
    forall w, d | 0 <= w < |r.mac| && 0 <= d < NUM_OF_TID ensures SlotOk(r, w, d) {
      assert SlotOk(t, w, d);
    }
    forall k | 0 <= k < |r.ori| ensures OriOk(r, k) {
      assert OriOk(t, k);
    }
    forall k | 0 <= k < |r.rec| ensures RecOk(r, k) {
      assert RecOk(t, k);
    }
  }

  lemma RecAddKeeps(t: Tables, wcid: nat, tid: nat)
    requires Consistent(t) && wcid < |t.mac| && tid < NUM_OF_TID
    ensures Consistent(RecAdd(t, wcid, tid).0)
  {
    hide CountOri, CountDone, CountRec, FirstFreeRec;
    var i := FirstFreeRec(t.rec, 1);
    var r := RecAdd(t, wcid, tid).0;
    if r != t {
      if i < |t.rec| {
        CountRecUpdate(t.rec, i, RecEntry(RecAccept, wcid, tid));
      }
      forall w, d | 0 <= w < |r.mac| && 0 <= d < NUM_OF_TID ensures SlotOk(r, w, d) {
        assert SlotOk(t, w, d);
      }
      forall k | 0 <= k < |r.ori| ensures OriOk(r, k) {
        assert OriOk(t, k);
      }
      forall k | 0 <= k < |r.rec| ensures RecOk(r, k) {
        assert RecOk(t, k);
      }
    }
  }

  lemma RecRemoveKeeps(t: Tables, i: nat)
    requires Consistent(t)
    ensures Consistent(RecRemove(t, i))
  {
    hide CountOri, CountDone, CountRec;
    var r := RecRemove(t, i);
    if r != t {
      CountRecUpdate(t.rec, i, t.rec[i].(status := RecNone));
      assert RecOk(t, i);
      forall w, d | 0 <= w < |r.mac| && 0 <= d < NUM_OF_TID ensures SlotOk(r, w, d) {
        assert SlotOk(t, w, d);
      }
      forall k | 0 <= k < |r.ori| ensures OriOk(r, k) {
        assert OriOk(t, k);
      }
      forall k | 0 <= k < |r.rec| ensures RecOk(r, k) {
        assert RecOk(t, k);
      }
    }
  }

  // ---------- whole runs ----------

  /** Every way the tables change. */
  datatype Op =
    | SetUp(wcid: nat, tid: nat, permitted: bool, limit: nat)
    | Agree(wcid: nat, tid: nat, bufSize: nat, cap: nat)
    | SetUpTimer(entry: nat, scanning: bool)
    | Drop(wcid: nat, tid: nat, passive: bool, memory: bool)
    | Accept(wcid: nat, tid: nat)
    | Leave(wcid: nat, tid: nat, passive: bool, memory: bool)

  /** The operation names a station and TID (or a timer's entry) that exists. */
  predicate Addressed(t: Tables, op: Op) {
    match op
    case SetUp(w, d, _, _) => w < |t.mac|
    case Agree(w, d, _, _) => w < |t.mac| && d < NUM_OF_TID
    case SetUpTimer(i, _) => i < |t.ori|
    case Drop(w, d, _, _) => d < NUM_OF_TID
    case Accept(w, d) => w < |t.mac| && d < NUM_OF_TID
    case Leave(w, d, _, _) => d < NUM_OF_TID
  }

  ghost function Apply(t: Tables, op: Op): Tables
    requires Consistent(t) && Addressed(t, op)
  {
    match op
    case SetUp(w, d, p, l) => OriSetUp(t, w, d, p, l)
    case Agree(w, d, b, c) => OriAdd(t, w, d, b, c)
    case SetUpTimer(i, sc) => OriTimeout(t, i, sc)
    case Drop(w, d, p, m) => OriTearDown(t, w, d, p, m)
    case Accept(w, d) => RecAdd(t, w, d).0
    case Leave(w, d, p, m) => RecTearDown(t, w, d, p, m)
  }

  lemma ApplyKeeps(t: Tables, op: Op)
    requires Consistent(t) && Addressed(t, op)
    ensures var r := Apply(t, op); Consistent(r) && |r.ori| == |t.ori| && |r.rec| == |t.rec| && |r.mac| == |t.mac|
  {
    hide CountOri, CountDone, CountRec, SlotOk, OriOk, RecOk, FirstFreeOri, FirstFreeRec;
    match op
    case SetUp(w, d, p, l) => OriSetUpKeeps(t, w, d, p, l);
    case Agree(w, d, b, c) => OriAddKeeps(t, w, d, b, c);
    case SetUpTimer(i, sc) => OriTimeoutKeeps(t, i, sc);
    case Drop(w, d, p, m) => if w < |t.mac| { OriFreeKeeps(t, t.mac[w].ori[d]); }
    case Accept(w, d) => RecAddKeeps(t, w, d);
    case Leave(w, d, p, m) => if w < |t.mac| { RecRemoveKeeps(t, t.mac[w].rec[d]); }
  }

  ghost function ApplyAll(t: Tables, ops: seq<Op>): (r: Tables)
    requires Consistent(t) && forall op :: op in ops ==> Addressed(t, op)
    ensures Consistent(r)
    decreases |ops|
  {
    if ops == [] then t
    else
      ApplyKeeps(t, ops[0]);
      assert forall op :: op in ops[1..] ==> op in ops && Addressed(t, op);
      ApplyAll(Apply(t, ops[0]), ops[1..])
  }

  /** After any run of operations the tables are consistent, so a station with no slot left finds a
      free entry exactly when the counter says there is one. */
  lemma AnyRunLeavesRoomIffCounted(t: Tables, ops: seq<Op>)
    requires Consistent(t) && forall op :: op in ops ==> Addressed(t, op)
    ensures var r := ApplyAll(t, ops);
      && Consistent(r)
      && (r.numAsOriginator < |r.ori| - 1 <==> FirstFreeOri(r.ori, 1) < |r.ori|)
      && (r.numAsRecipient < |r.rec| - 1 <==> FirstFreeRec(r.rec, 1) < |r.rec|)
  {
    OriScanFindsIffGuardPasses(ApplyAll(t, ops));
    RecScanFindsIffGuardPasses(ApplyAll(t, ops));
  }

  /** Slots and bits of one TID of a station, as far as they tell whether sessions are held. */
  ghost predicate SameHold(m: Station, n: Station, d: nat)
    requires |m.ori| == |n.ori| == |m.rec| == |n.rec| == NUM_OF_TID && d < NUM_OF_TID
  {
    m.ori[d] == n.ori[d] && m.rec[d] == n.rec[d] && (d in m.tx <==> d in n.tx) && (d in m.rx <==> d in n.rx)
  }

  /** Tearing one TID down leaves the other TIDs alone; its own is cleared unless the notice is due
      and cannot be sent. */
  lemma TearDownOne(t: Tables, wcid: nat, tid: nat, mo: bool, mr: bool)
    requires Consistent(t) && wcid < |t.mac| && tid < NUM_OF_TID
    ensures var t1 := OriTearDown(t, wcid, tid, false, mo);
      && Consistent(t1) && |t1.mac| == |t.mac|
      && var r := RecTearDown(t1, wcid, tid, false, mr);
      && Consistent(r) && |r.mac| == |t.mac|
      && (forall d :: 0 <= d < NUM_OF_TID && d != tid ==> SameHold(r.mac[wcid], t.mac[wcid], d))
      && (r.mac[wcid].ori[tid] != 0 <==> tid in t.mac[wcid].tx && !mo)
      && (r.mac[wcid].rec[tid] != 0 <==> tid in t.mac[wcid].rx && !mr)
  {
    hide Consistent, SlotOk, OriTearDown, RecTearDown;
    OriTearDownOne(t, wcid, tid, mo);
    var t1 := OriTearDown(t, wcid, tid, false, mo);
    RecTearDownOne(t1, wcid, tid, mr);
    var r := RecTearDown(t1, wcid, tid, false, mr);
    forall d | 0 <= d < NUM_OF_TID && d != tid ensures SameHold(r.mac[wcid], t.mac[wcid], d) {
      assert SameHold(t1.mac[wcid], t.mac[wcid], d) && SameHold(r.mac[wcid], t1.mac[wcid], d);
    }
  }

  lemma OriTearDownOne(t: Tables, wcid: nat, tid: nat, mo: bool)
    requires Consistent(t) && wcid < |t.mac| && tid < NUM_OF_TID
    ensures var r := OriTearDown(t, wcid, tid, false, mo); var (m, n) := (t.mac[wcid], r.mac[wcid]);
      && Consistent(r) && |r.mac| == |t.mac|
      && |m.ori| == |n.ori| == |m.rec| == |n.rec| == NUM_OF_TID
      && (forall d :: 0 <= d < NUM_OF_TID && d != tid ==> SameHold(n, m, d))
      && n.rec == m.rec && n.rx == m.rx
      && (n.ori[tid] != 0 <==> tid in m.tx && !mo)
  {
    hide CountOri, CountDone, CountRec;
    assert SlotOk(t, wcid, tid);
    ApplyKeeps(t, Drop(wcid, tid, false, mo));
  }

  lemma RecTearDownOne(t: Tables, wcid: nat, tid: nat, mr: bool)
    requires Consistent(t) && wcid < |t.mac| && tid < NUM_OF_TID
    ensures var r := RecTearDown(t, wcid, tid, false, mr); var (m, n) := (t.mac[wcid], r.mac[wcid]);
      && Consistent(r) && |r.mac| == |t.mac|
      && |m.ori| == |n.ori| == |m.rec| == |n.rec| == NUM_OF_TID
      && (forall d :: 0 <= d < NUM_OF_TID && d != tid ==> SameHold(n, m, d))
      && n.ori == m.ori && n.tx == m.tx
      && (n.rec[tid] != 0 <==> tid in m.rx && !mr)
  {
    hide CountOri, CountDone, CountRec;
    assert SlotOk(t, wcid, tid);
    ApplyKeeps(t, Leave(wcid, tid, false, mr));
  }

  /** BASessionTearDownALL from TID tid on, both directions of each; the notice to the peer can be
      allocated for the originator TIDs in om and the recipient TIDs in rm. */
  ghost function TearDownFrom(t: Tables, wcid: nat, tid: nat, om: set<nat>, rm: set<nat>): (r: Tables)
    requires Consistent(t) && wcid < |t.mac| && tid <= NUM_OF_TID
    ensures Consistent(r) && |r.mac| == |t.mac|
    decreases NUM_OF_TID - tid
  {
    if tid == NUM_OF_TID then t
    else
      TearDownOne(t, wcid, tid, tid in om, tid in rm);
      var t1 := OriTearDown(t, wcid, tid, false, tid in om);
      TearDownFrom(RecTearDown(t1, wcid, tid, false, tid in rm), wcid, tid + 1, om, rm)
  }

  /** A station held m and holds n: of TID d, the sessions whose notice could not be allocated. */
  ghost predicate Left(n: Station, m: Station, d: nat, om: set<nat>, rm: set<nat>)
    requires |n.ori| == |n.rec| == NUM_OF_TID && d < NUM_OF_TID
  {
    (n.ori[d] != 0 <==> d in m.tx && d !in om) && (n.rec[d] != 0 <==> d in m.rx && d !in rm)
  }

  lemma LeftOnward(m: Station, m2: Station, n: Station, tid: nat, om: set<nat>, rm: set<nat>)
    requires |m.ori| == |m.rec| == |m2.ori| == |m2.rec| == |n.ori| == |n.rec| == NUM_OF_TID && tid < NUM_OF_TID
    requires forall d :: 0 <= d < NUM_OF_TID && d != tid ==> SameHold(m2, m, d)
    requires Left(m2, m, tid, om, rm)
    requires forall d :: 0 <= d < tid + 1 ==> SameHold(n, m2, d)
    requires forall d :: tid + 1 <= d < NUM_OF_TID ==> Left(n, m2, d, om, rm)
    ensures forall d :: 0 <= d < tid ==> SameHold(n, m, d)
    ensures forall d :: tid <= d < NUM_OF_TID ==> Left(n, m, d, om, rm)
  {
    forall d | 0 <= d < tid ensures SameHold(n, m, d) {
      assert SameHold(m2, m, d) && SameHold(n, m2, d);
    }
    forall d | tid <= d < NUM_OF_TID ensures Left(n, m, d, om, rm) {
      if d == tid {
        assert SameHold(n, m2, d);
      } else {
        assert SameHold(m2, m, d) && Left(n, m2, d, om, rm);
      }
    }
  }

  /** After the tear-down a station holds exactly the sessions whose notice could not be allocated;
      set-ups still waiting for an answer need none. */
  lemma {:induction false} TearDownLeaves(t: Tables, wcid: nat, tid: nat, om: set<nat>, rm: set<nat>)
    requires Consistent(t) && wcid < |t.mac| && tid <= NUM_OF_TID
    ensures var r := TearDownFrom(t, wcid, tid, om, rm); var (m, n) := (t.mac[wcid], r.mac[wcid]);
      && |m.ori| == |n.ori| == |m.rec| == |n.rec| == NUM_OF_TID
      && (forall d :: 0 <= d < tid ==> SameHold(n, m, d))
      && (forall d :: tid <= d < NUM_OF_TID ==> Left(n, m, d, om, rm))
    decreases NUM_OF_TID - tid
  {
    hide OriTearDown, RecTearDown, CountOri, CountDone, CountRec, SlotOk, OriOk, RecOk;
    if tid < NUM_OF_TID {
      TearDownOne(t, wcid, tid, tid in om, tid in rm);
      var t1 := OriTearDown(t, wcid, tid, false, tid in om);
      var t2 := RecTearDown(t1, wcid, tid, false, tid in rm);
      TearDownLeaves(t2, wcid, tid + 1, om, rm);
      LeftOnward(t.mac[wcid], t2.mac[wcid], TearDownFrom(t, wcid, tid, om, rm).mac[wcid], tid, om, rm);
    }
  }

  /** No entry in use names the station. */
  ghost predicate Unnamed(t: Tables, wcid: nat) {
    && (forall i :: 0 <= i < |t.ori| && t.ori[i].wcid == wcid ==> t.ori[i].status.OriNone?)
    && (forall i :: 0 <= i < |t.rec| && t.rec[i].wcid == wcid ==> t.rec[i].status.RecNone?)
  }

  lemma UnnamedIffNoSlot(t: Tables, wcid: nat)
    requires Consistent(t) && wcid < |t.mac|
    ensures Unnamed(t, wcid) <==> forall d :: 0 <= d < NUM_OF_TID ==> t.mac[wcid].ori[d] == 0 && t.mac[wcid].rec[d] == 0
  {
    hide CountOri, CountDone, CountRec;
    if Unnamed(t, wcid) {
      forall d | 0 <= d < NUM_OF_TID ensures t.mac[wcid].ori[d] == 0 && t.mac[wcid].rec[d] == 0 {
        assert SlotOk(t, wcid, d);
      }
    }
    if forall d :: 0 <= d < NUM_OF_TID ==> t.mac[wcid].ori[d] == 0 && t.mac[wcid].rec[d] == 0 {
      forall i | 0 <= i < |t.ori| && t.ori[i].wcid == wcid ensures t.ori[i].status.OriNone? {
        assert OriOk(t, i);
      }
      forall i | 0 <= i < |t.rec| && t.rec[i].wcid == wcid ensures t.rec[i].status.RecNone? {
        assert RecOk(t, i);
      }
    }
  }

  /** A station torn down altogether is named by no entry any more exactly when the notice could be
      allocated for each of its agreed sessions. */
  lemma TearDownAllClearsIff(t: Tables, wcid: nat, om: set<nat>, rm: set<nat>)
    requires Consistent(t) && wcid < |t.mac|
    ensures Unnamed(TearDownFrom(t, wcid, 0, om, rm), wcid) <==>
      forall d :: 0 <= d < NUM_OF_TID ==> (d in t.mac[wcid].tx ==> d in om) && (d in t.mac[wcid].rx ==> d in rm)
  {
    hide Consistent, TearDownFrom, Unnamed;
    TearDownLeaves(t, wcid, 0, om, rm);
    var r := TearDownFrom(t, wcid, 0, om, rm);
    UnnamedIffNoSlot(r, wcid);
    forall d | 0 <= d < NUM_OF_TID
      ensures r.mac[wcid].ori[d] == 0 && r.mac[wcid].rec[d] == 0 <==>
        (d in t.mac[wcid].tx ==> d in om) && (d in t.mac[wcid].rx ==> d in rm)
    {
      assert Left(r.mac[wcid], t.mac[wcid], d, om, rm);
    }
  }

  /** One agreed originator session, entry 1 for station 1 and TID 0, and nothing else. */
  function OneSession(): Tables {
    var none, free := OriEntry(OriNone, 0, 0, 0, 0), RecEntry(RecNone, 0, 0);
    var idle := Station([0, 0, 0, 0, 0, 0, 0, 0], [0, 0, 0, 0, 0, 0, 0, 0], {}, {}, {});
    Tables([none, OriEntry(OriDone, 1, 0, 8, 1), none], [free, free],
           [idle, idle.(ori := [1, 0, 0, 0, 0, 0, 0, 0], tx := {0})], 0, 1, 1)
  }

  lemma OneSessionIsConsistent()
    ensures Consistent(OneSession())
  {
    var t := OneSession();
    OneSessionCounts();
    forall w, d | 0 <= w < |t.mac| && 0 <= d < NUM_OF_TID ensures SlotOk(t, w, d) {
      OneSessionSlots(w, d);
    }
    OneSessionEntries();
  }

  lemma OneSessionCounts()
    ensures var t := OneSession(); Shaped(t) && CountOri(t.ori) == CountDone(t.ori) == 1 && CountRec(t.rec) == 0
  {
    var t := OneSession();
    assert t.ori[1..] == [t.ori[1], t.ori[2]] && t.ori[1..][1..] == [t.ori[2]] && t.ori[1..][1..][1..] == [];
    assert t.rec[1..] == [t.rec[1]] && t.rec[1..][1..] == [];
    assert CountOri([t.ori[2]]) == CountDone([t.ori[2]]) == 0;
  }

  lemma OneSessionSlots(w: nat, d: nat)
    requires w < 2 && d < NUM_OF_TID
    ensures Shaped(OneSession()) && SlotOk(OneSession(), w, d)
  {
    hide CountOri, CountDone, CountRec;
    var t := OneSession();
    assert t.mac[w].rec[d] == 0 && t.mac[w].ori[d] == (if w == 1 && d == 0 then 1 else 0);
  }

  lemma OneSessionEntries()
    ensures var t := OneSession();
      && Shaped(t)
      && (forall i :: 0 <= i < |t.ori| ==> OriOk(t, i))
      && (forall i :: 0 <= i < |t.rec| ==> RecOk(t, i))
  {
    hide CountOri, CountDone, CountRec;
  }

  /** A station torn down when no notice can be allocated keeps that session. */
  lemma SessionOutlivesTearDown()
    ensures Consistent(OneSession()) && !Unnamed(TearDownFrom(OneSession(), 1, 0, {}, {}), 1)
    ensures TearDownFrom(OneSession(), 1, 0, {}, {}).mac[1].ori[0] != 0
  {
    hide Consistent, TearDownFrom, Unnamed;
    OneSessionIsConsistent();
    TearDownAllClearsIff(OneSession(), 1, {}, {});
    TearDownLeaves(OneSession(), 1, 0, {}, {});
    assert 0 in OneSession().mac[1].tx;
    assert Left(TearDownFrom(OneSession(), 1, 0, {}, {}).mac[1], OneSession().mac[1], 0, {}, {});
  }
}
