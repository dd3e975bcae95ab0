/** The station table as values: a flat array of entries, and for every address hash a chain of the
    live entries with that hash. */
module MacSpec {
  import opened Options
  import opened Sequences

  type Address = a: seq<bv8> | |a| == 6 witness [0, 0, 0, 0, 0, 0]

  const HASH_TABLE_SIZE: nat := 256

  function Hash(a: Address): (h: nat)
    ensures h < HASH_TABLE_SIZE
  {
    ((a[0] ^ a[1] ^ a[2] ^ a[3] ^ a[4] ^ a[5]) & 0xFF) as nat
  }

  /** All bytes added without carry. */
  function Parity(s: seq<bv8>): bv8 {
    if s == [] then 0 else Parity(s[..|s| - 1]) ^ s[|s| - 1]
  }

  lemma ParityMore(s: seq<bv8>, n: nat)
    requires n < |s|
    ensures Parity(s[..n + 1]) == Parity(s[..n]) ^ s[n]
  {
    assert s[..n + 1][..n] == s[..n];
  }

  /** The hash is that sum, of all six bytes. */
  lemma HashIsParity(a: Address)
    ensures Hash(a) == Parity(a) as nat
  {
    hide Parity;
    FirstByte(a);
    ParityMore(a, 1);
    ParityMore(a, 2);
    ParityMore(a, 3);
    ParityMore(a, 4);
    ParityMore(a, 5);
    assert a[..6] == a;
  }

  lemma FirstByte(a: Address)
    ensures Parity(a[..1]) == a[0]
  {
    assert a[..1][..0] == [];
  }

  datatype Slot = Slot(live: bool, addr: Address) {
    predicate Has(a: Address) { live && addr == a }
  }

  datatype Table = Table(slots: seq<Slot>, chains: seq<seq<nat>>, size: int)

  function Live(slots: seq<Slot>): set<nat> {
    set w | 0 <= w < |slots| && slots[w].live
  }

  /** Chain h holds live entries of that hash only, each once. */
  ghost predicate ChainOk(slots: seq<Slot>, c: seq<nat>, h: nat) {
    && Distinct(c)
    && forall w :: w in c ==> w < |slots| && slots[w].live && Hash(slots[w].addr) == h
  }

  /** Every live entry is in the chain of its address, chains hold nothing else, and size counts. */
  ghost predicate Sound(t: Table) {
    && |t.chains| == HASH_TABLE_SIZE
    && (forall h :: 0 <= h < HASH_TABLE_SIZE ==> ChainOk(t.slots, t.chains[h], h))
    && (forall w {:trigger t.slots[w]} :: 0 <= w < |t.slots| && t.slots[w].live ==> w in t.chains[Hash(t.slots[w].addr)])
    && t.size == |Live(t.slots)|
  }

  // ---------- operations ----------

  /** The first entry of a chain that has the address. */
  function FirstIn(slots: seq<Slot>, c: seq<nat>, a: Address): (r: Option<nat>)
    ensures r.Some? ==> r.value in c && r.value < |slots| && slots[r.value].Has(a)
    ensures r.None? ==> forall w :: w in c && w < |slots| ==> !slots[w].Has(a)
  {
    if c == [] then None
    else if c[0] < |slots| && slots[c[0]].Has(a) then Some(c[0])
    else FirstIn(slots, c[1..], a)
  }

  /** MacTableLookup. */
  function Lookup(t: Table, a: Address): Option<nat>
    requires |t.chains| == HASH_TABLE_SIZE
  {
    FirstIn(t.slots, t.chains[Hash(a)], a)
  }

  /** The lowest entry that has the address. */
  function Scan(slots: seq<Slot>, a: Address, from: nat): (r: Option<nat>)
    requires from <= |slots|
    ensures r.Some? ==> from <= r.value < |slots| && slots[r.value].Has(a)
    ensures r.Some? ==> forall w :: from <= w < r.value ==> !slots[w].Has(a)
    ensures r.None? ==> forall w :: from <= w < |slots| ==> !slots[w].Has(a)
    decreases |slots| - from
  {
    if from == |slots| then None
    else if slots[from].Has(a) then Some(from)
    else Scan(slots, a, from + 1)
  }

  /** The first vacant entry from the given one on. */
  function Vacant(slots: seq<Slot>, from: nat): (w: nat)
    ensures w >= from
    ensures w < |slots| ==> !slots[w].live
    ensures forall v :: from <= v < w && v < |slots| ==> slots[v].live
    ensures w >= |slots| ==> forall v :: from <= v < |slots| ==> slots[v].live
    decreases |slots| - from
  {
    if from >= |slots| || !slots[from].live then from else Vacant(slots, from + 1)
  }

  function Fill(t: Table, w: nat, a: Address): Table
    requires |t.chains| == HASH_TABLE_SIZE && w < |t.slots|
  {
    Table(t.slots[w := Slot(true, a)], t.chains[Hash(a) := t.chains[Hash(a)] + [w]], t.size + 1)
  }

  /** MacTableInsertEntry; the first usable entry is 1 or 2. */
  function Insert(t: Table, a: Address, first: nat): (Table, Option<nat>)
    requires |t.chains| == HASH_TABLE_SIZE
  {
    if t.size >= |t.slots| || Vacant(t.slots, first) >= |t.slots| then (t, None)
    else (Fill(t, Vacant(t.slots, first), a), Some(Vacant(t.slots, first)))
  }

  function Without(c: seq<nat>, w: nat): (r: seq<nat>)
    ensures w !in c ==> r == c
    ensures |r| <= |c|
  {
    if c == [] then []
    else if c[0] == w then c[1..]
    else [c[0]] + Without(c[1..], w)
  }

  function Clear(t: Table, w: nat): Table
    requires |t.chains| == HASH_TABLE_SIZE && w < |t.slots|
  {
    var h := Hash(t.slots[w].addr);
    Table(t.slots[w := t.slots[w].(live := false)], t.chains[h := Without(t.chains[h], w)], t.size - 1)
  }

  /** MacTableDeleteEntry: nothing happens unless the entry is live with that address. */
  function Delete(t: Table, wcid: nat, a: Address): (Table, bool)
    requires |t.chains| == HASH_TABLE_SIZE
  {
    if wcid >= |t.slots| then (t, false)
    else if t.slots[wcid].Has(a) then (Clear(t, wcid), true)
    else (t, true)
  }

  function Empty(max: nat): (t: Table)
    ensures |t.chains| == HASH_TABLE_SIZE
  {
    Table(seq(max, _ => Slot(false, [0, 0, 0, 0, 0, 0])), seq(HASH_TABLE_SIZE, _ => []), 0)
  }

  // ---------- soundness is kept ----------

  lemma LiveAdded(slots: seq<Slot>, w: nat, a: Address)
    requires w < |slots| && !slots[w].live
    ensures |Live(slots[w := Slot(true, a)])| == |Live(slots)| + 1
  {
    assert Live(slots[w := Slot(true, a)]) == Live(slots) + {w};
  }

  lemma LiveTaken(slots: seq<Slot>, w: nat)
    requires w < |slots| && slots[w].live
    ensures |Live(slots[w := slots[w].(live := false)])| == |Live(slots)| - 1
  {
    assert w in Live(slots);
    assert Live(slots[w := slots[w].(live := false)]) == Live(slots) - {w};
  }

  lemma {:induction false} WithoutIs(c: seq<nat>, w: nat)
    requires Distinct(c)
    ensures Distinct(Without(c, w))
    ensures forall v :: v in Without(c, w) <==> v in c && v != w
  {
    if c != [] {
      WithoutIs(c[1..], w);
      assert forall v :: v in c <==> v == c[0] || v in c[1..];
      assert c[0] !in c[1..];
      if c[0] != w {
        var r := Without(c[1..], w);
        assert forall v :: v in [c[0]] + r <==> v == c[0] || v in r;
      }
    }
  }

  lemma FillKeeps(t: Table, w: nat, a: Address)
    requires Sound(t) && w < |t.slots| && !t.slots[w].live
    ensures Sound(Fill(t, w, a))
  {
    var u := Fill(t, w, a);
    LiveAdded(t.slots, w, a);
    forall h | 0 <= h < HASH_TABLE_SIZE ensures ChainOk(u.slots, u.chains[h], h) {
      assert ChainOk(t.slots, t.chains[h], h);
      assert w !in t.chains[h];
    }
    forall v | 0 <= v < |u.slots| && u.slots[v].live ensures v in u.chains[Hash(u.slots[v].addr)] {
      if v != w {
        assert v in t.chains[Hash(t.slots[v].addr)];
      }
    }
  }

  lemma ClearKeeps(t: Table, w: nat)
    requires Sound(t) && w < |t.slots| && t.slots[w].live
    ensures Sound(Clear(t, w))
  {
    var u := Clear(t, w);
    var h0 := Hash(t.slots[w].addr);
    LiveTaken(t.slots, w);
    WithoutIs(t.chains[h0], w);
    forall h | 0 <= h < HASH_TABLE_SIZE ensures ChainOk(u.slots, u.chains[h], h) {
      assert ChainOk(t.slots, t.chains[h], h);
    }
    forall v | 0 <= v < |u.slots| && u.slots[v].live ensures v in u.chains[Hash(u.slots[v].addr)] {
      assert v in t.chains[Hash(t.slots[v].addr)];
    }
  }

  // ---------- runs ----------

  datatype Op = Ins(a: Address, first: nat) | Del(wcid: nat, a: Address)

  function Apply(t: Table, op: Op): Table
    requires |t.chains| == HASH_TABLE_SIZE
  {
    match op
    case Ins(a, first) => Insert(t, a, first).0
    case Del(wcid, a) => Delete(t, wcid, a).0
  }

  function ApplyAll(t: Table, ops: seq<Op>): (u: Table)
    requires |t.chains| == HASH_TABLE_SIZE
    ensures |u.chains| == HASH_TABLE_SIZE
  {
    if ops == [] then t else Apply(ApplyAll(t, ops[..|ops| - 1]), ops[|ops| - 1])
  }

  lemma ApplyKeeps(t: Table, op: Op)
    requires Sound(t)
    ensures Sound(Apply(t, op))
  {
    hide Sound, Fill, Clear;
    match op
    case Ins(a, first) =>
      if t.size < |t.slots| && Vacant(t.slots, first) < |t.slots| { FillKeeps(t, Vacant(t.slots, first), a); }
    case Del(wcid, a) =>
      if wcid < |t.slots| && t.slots[wcid].Has(a) { ClearKeeps(t, wcid); }
  }

  lemma EmptyIsSound(max: nat)
    ensures Sound(Empty(max)) && Unique(Empty(max).slots)
  {
    assert Live(Empty(max).slots) == {};
  }

  /** After any run, the chains and the flat table agree and the count is right. */
  lemma {:induction false} RunIsSound(max: nat, ops: seq<Op>)
    ensures Sound(ApplyAll(Empty(max), ops))
  {
    hide Sound, Apply, Empty;
    if ops == [] {
      EmptyIsSound(max);
    } else {
      RunIsSound(max, ops[..|ops| - 1]);
      ApplyKeeps(ApplyAll(Empty(max), ops[..|ops| - 1]), ops[|ops| - 1]);
    }
  }

  // ---------- the lookup against a scan of the flat table ----------

  /** The lookup finds a live entry with the address whenever there is one. */
  lemma LookupFindsIffPresent(t: Table, a: Address)
    requires Sound(t)
    ensures Lookup(t, a).Some? <==> exists w :: 0 <= w < |t.slots| && t.slots[w].Has(a)
    ensures Lookup(t, a).Some? ==> Lookup(t, a).value < |t.slots| && t.slots[Lookup(t, a).value].Has(a)
  {
    assert ChainOk(t.slots, t.chains[Hash(a)], Hash(a));
  }

  /** The lookup answers as a scan from the bottom would exactly when the entry it meets first in
      the chain is the lowest with the address. */
  lemma LookupIsScanIffLowest(t: Table, a: Address)
    requires Sound(t)
    ensures Lookup(t, a) == Scan(t.slots, a, 0) <==>
      (Lookup(t, a).Some? ==> forall w :: 0 <= w < |t.slots| && t.slots[w].Has(a) ==> Lookup(t, a).value <= w)
  {
    LookupFindsIffPresent(t, a);
  }

  /** No two live entries share an address. */
  ghost predicate Unique(slots: seq<Slot>) {
    forall v, w :: 0 <= v < w < |slots| && slots[v].live && slots[w].live ==> slots[v].addr != slots[w].addr
  }

  /** Insertion is only asked for addresses the lookup does not find. */
  predicate Careful(t: Table, op: Op)
    requires |t.chains| == HASH_TABLE_SIZE
  {
    op.Ins? ==> Lookup(t, op.a).None?
  }

  predicate CarefulRun(t: Table, ops: seq<Op>)
    requires |t.chains| == HASH_TABLE_SIZE
  {
    ops != [] ==> CarefulRun(t, ops[..|ops| - 1]) && Careful(ApplyAll(t, ops[..|ops| - 1]), ops[|ops| - 1])
  }

  lemma CarefulKeepsUnique(t: Table, op: Op)
    requires Sound(t) && Unique(t.slots) && Careful(t, op)
    ensures Unique(Apply(t, op).slots)
  {
    hide Sound, FirstIn, Lookup;
    if op.Ins? {
      LookupFindsIffPresent(t, op.a);
      assert forall w :: 0 <= w < |t.slots| ==> !t.slots[w].Has(op.a);
    }
  }

  lemma {:induction false} CarefulRunIsUnique(max: nat, ops: seq<Op>)
    requires CarefulRun(Empty(max), ops)
    ensures Unique(ApplyAll(Empty(max), ops).slots)
  {
    hide Sound, Apply, Empty, Careful, Unique;
    if ops == [] {
      EmptyIsSound(max);
    } else {
      CarefulRunIsUnique(max, ops[..|ops| - 1]);
      RunIsSound(max, ops[..|ops| - 1]);
      CarefulKeepsUnique(ApplyAll(Empty(max), ops[..|ops| - 1]), ops[|ops| - 1]);
    }
  }

  /** After any run that inserts only absent addresses, every lookup answers as a scan of the flat
      table would. */
  lemma CarefulRunLooksUpAsScan(max: nat, ops: seq<Op>, a: Address)
    requires CarefulRun(Empty(max), ops)
    ensures var t := ApplyAll(Empty(max), ops); Lookup(t, a) == Scan(t.slots, a, 0)
  {
    hide Apply, ApplyAll, Empty, CarefulRun;
    var t := ApplyAll(Empty(max), ops);
    RunIsSound(max, ops);
    CarefulRunIsUnique(max, ops);
    LookupIsScanIffLowest(t, a);
    LookupFindsIffPresent(t, a);
  }

  /** Without that care it need not: with the address b below a gone and a inserted once more, the
      older of the two entries is found, the scan finds the lower. */
  lemma RepeatedAddressIsFoundHigher(a: Address, b: Address)
    requires a != b
    ensures var t := ApplyAll(Empty(4), [Ins(b, 1), Ins(a, 1), Del(1, b), Ins(a, 1)]);
      Lookup(t, a) == Some(2) && Scan(t.slots, a, 0) == Some(1)
  {
    hide Vacant, ApplyAll, Apply, Hash, Scan;
    var t0 := Empty(4);
    var t1 := Fill(t0, 1, b);
    var t2 := Fill(t1, 2, a);
    var t3 := Clear(t2, 1);
    InsertIs(t0, b, 1);
    InsertIs(t1, a, 2);
    DeleteIs(t2, b, 1);
    InsertIs(t3, a, 1);
    FourTurns(t0, Ins(b, 1), Ins(a, 1), Del(1, b), Ins(a, 1));
    var t4 := Fill(t3, 1, a);
    assert t4.chains[Hash(a)][0] == 2;
    assert t4.slots[1].Has(a) && !t4.slots[0].Has(a);
    LowestIs(t4.slots, a);
  }

  lemma LowestIs(slots: seq<Slot>, a: Address)
    requires |slots| > 1 && slots[1].Has(a) && !slots[0].Has(a)
    ensures Scan(slots, a, 0) == Some(1)
  {
  }

  lemma InsertIs(t: Table, a: Address, w: nat)
    requires |t.chains| == HASH_TABLE_SIZE && t.size < |t.slots|
    requires 1 <= w < |t.slots| && !t.slots[w].live && forall v :: 1 <= v < w ==> t.slots[v].live
    ensures Apply(t, Ins(a, 1)) == Fill(t, w, a)
  {
    VacantIs(t.slots, 1, w);
  }

  lemma DeleteIs(t: Table, a: Address, w: nat)
    requires |t.chains| == HASH_TABLE_SIZE && w < |t.slots| && t.slots[w].Has(a)
    ensures Apply(t, Del(w, a)) == Clear(t, w)
  {
  }

  lemma VacantIs(slots: seq<Slot>, from: nat, w: nat)
    requires from <= w < |slots| && !slots[w].live && forall v :: from <= v < w ==> slots[v].live
    ensures Vacant(slots, from) == w
  {
  }

  lemma FourTurns(t: Table, o1: Op, o2: Op, o3: Op, o4: Op)
    requires |t.chains| == HASH_TABLE_SIZE
    ensures ApplyAll(t, [o1, o2, o3, o4]) == Apply(Apply(Apply(Apply(t, o1), o2), o3), o4)
  {
    hide Apply;
    assert [o1, o2, o3, o4][..3] == [o1, o2, o3] && [o1, o2, o3][..2] == [o1, o2] && [o1, o2][..1] == [o1] && [o1][..0] == [];
    assert ApplyAll(t, [o1]) == Apply(t, o1);
    assert ApplyAll(t, [o1, o2]) == Apply(Apply(t, o1), o2);
    assert ApplyAll(t, [o1, o2, o3]) == Apply(Apply(Apply(t, o1), o2), o3);
  }
}
