/** When the lookup along the chains answers as a scan of the flat table would: for every step and
    for every run, decided before the step from what the table holds. */
module MacAgreement {
  import opened MacSpec
  import opened Options

  /** For every address the lookup finds the lowest entry that has it. */
  ghost predicate Agrees(t: Table)
    requires |t.chains| == HASH_TABLE_SIZE
  {
    forall b: Address :: Lookup(t, b) == Scan(t.slots, b, 0)
  }

  // ---------- what moves an answer ----------

  /** The same entries have the address in both tables. */
  ghost predicate SameCarriers(s: seq<Slot>, u: seq<Slot>, a: Address) {
    |s| == |u| && forall v :: 0 <= v < |s| ==> s[v].Has(a) == u[v].Has(a)
  }

  lemma {:induction false} ScanSame(s: seq<Slot>, u: seq<Slot>, a: Address, from: nat)
    requires SameCarriers(s, u, a) && from <= |s|
    ensures Scan(s, a, from) == Scan(u, a, from)
    decreases |s| - from
  {
    if from < |s| { ScanSame(s, u, a, from + 1); }
  }

  lemma {:induction false} FirstInSame(s: seq<Slot>, u: seq<Slot>, c: seq<nat>, a: Address)
    requires |s| == |u| && forall v :: v in c && v < |s| ==> s[v].Has(a) == u[v].Has(a)
    ensures FirstIn(s, c, a) == FirstIn(u, c, a)
  {
    if c != [] { FirstInSame(s, u, c[1..], a); }
  }

  lemma {:induction false} FirstInMore(s: seq<Slot>, c: seq<nat>, w: nat, a: Address)
    requires w < |s|
    ensures FirstIn(s, c + [w], a) == if FirstIn(s, c, a).Some? then FirstIn(s, c, a) else if s[w].Has(a) then Some(w) else None
  {
    if c != [] {
      FirstInMore(s, c[1..], w, a);
      assert (c + [w])[1..] == c[1..] + [w];
    }
  }

  lemma {:induction false} FirstInWithout(s: seq<Slot>, c: seq<nat>, w: nat, a: Address)
    requires FirstIn(s, c, a) != Some(w)
    ensures FirstIn(s, Without(c, w), a) == FirstIn(s, c, a)
  {
    if c != [] && c[0] != w && FirstIn(s, c[1..], a) != Some(w) {
      FirstInWithout(s, c[1..], w, a);
    }
  }

  /** A scan is the lowest carrier from a place on. */
  lemma ScanIs(s: seq<Slot>, a: Address, from: nat, w: nat)
    requires from <= w < |s| && s[w].Has(a) && forall v :: from <= v < w ==> !s[v].Has(a)
    ensures Scan(s, a, from) == Some(w)
  {
  }

  lemma {:induction false} ScanFrom(s: seq<Slot>, a: Address, from: nat, to: nat)
    requires from <= to <= |s| && forall v :: from <= v < to ==> !s[v].Has(a)
    ensures Scan(s, a, from) == Scan(s, a, to)
    decreases |s| - from
  {
    if from < to { ScanFrom(s, a, from + 1, to); }
  }

  // ---------- insertion ----------

  /** Another address is not affected by an insertion. */
  lemma FillKeepsOthers(t: Table, w: nat, a: Address, b: Address)
    requires |t.chains| == HASH_TABLE_SIZE && w < |t.slots| && !t.slots[w].live && a != b
    ensures var u := Fill(t, w, a); Lookup(u, b) == Lookup(t, b) && Scan(u.slots, b, 0) == Scan(t.slots, b, 0)
  {
    var u := Fill(t, w, a);
    var c := t.chains[Hash(b)];
    FirstInSame(t.slots, u.slots, c, b);
    ScanSame(t.slots, u.slots, b, 0);
    if Hash(a) == Hash(b) { FirstInMore(u.slots, c, w, b); }
  }

  /** The address inserted is found where it was found before, if it was, and scanned for at the
      lower of the two places. */
  lemma FillAnswers(t: Table, w: nat, a: Address)
    requires Sound(t) && w < |t.slots| && !t.slots[w].live
    ensures var u := Fill(t, w, a); var was := Scan(t.slots, a, 0);
      && Lookup(u, a) == (if Lookup(t, a).Some? then Lookup(t, a) else Some(w))
      && Scan(u.slots, a, 0) == (if was.Some? && was.value < w then was else Some(w))
  {
    var u := Fill(t, w, a);
    var c := t.chains[Hash(a)];
    assert ChainOk(t.slots, c, Hash(a));
    FirstInSame(t.slots, u.slots, c, a);
    FirstInMore(u.slots, c, w, a);
    var was := Scan(t.slots, a, 0);
    if was.Some? && was.value < w {
      ScanIs(u.slots, a, 0, was.value);
    } else {
      ScanIs(u.slots, a, 0, w);
    }
  }

  /** An insertion keeps the agreement exactly when the entry it will take lies above the one that
      has the address already, if one has. */
  lemma InsertKeepsAgreementIff(t: Table, a: Address, first: nat)
    requires Sound(t) && Agrees(t) && t.size < |t.slots| && Vacant(t.slots, first) < |t.slots|
    ensures Agrees(Insert(t, a, first).0) <==> (Lookup(t, a).Some? ==> Lookup(t, a).value < Vacant(t.slots, first))
  {
    hide Lookup, Scan, Vacant;
    var w := Vacant(t.slots, first);
    FillAnswers(t, w, a);
    assert Lookup(t, a) == Scan(t.slots, a, 0);
    PresentIsLive(t, a, w);
    forall b: Address | b != a ensures Lookup(Fill(t, w, a), b) == Scan(Fill(t, w, a).slots, b, 0) {
      FillKeepsOthers(t, w, a, b);
      assert Lookup(t, b) == Scan(t.slots, b, 0);
    }
  }

  lemma PresentIsLive(t: Table, a: Address, w: nat)
    requires Sound(t) && w < |t.slots| && !t.slots[w].live
    ensures Lookup(t, a) != Some(w)
  {
    LookupFindsIffPresent(t, a);
  }

  // ---------- deletion ----------

  /** The entry the lookup would meet next after entry w in the chain of address a. */
  function NextInChain(t: Table, w: nat, a: Address): Option<nat>
    requires |t.chains| == HASH_TABLE_SIZE
  {
    FirstIn(t.slots, Without(t.chains[Hash(a)], w), a)
  }

  lemma ClearKeepsOthers(t: Table, w: nat, b: Address)
    requires |t.chains| == HASH_TABLE_SIZE && w < |t.slots| && t.slots[w].addr != b
    ensures var u := Clear(t, w); Lookup(u, b) == Lookup(t, b) && Scan(u.slots, b, 0) == Scan(t.slots, b, 0)
  {
    var u := Clear(t, w);
    var c := t.chains[Hash(b)];
    ScanSame(t.slots, u.slots, b, 0);
    FirstInWithout(t.slots, c, w, b);
    FirstInSame(t.slots, u.slots, u.chains[Hash(b)], b);
  }

  lemma ClearAnswers(t: Table, w: nat, a: Address)
    requires Sound(t) && w < |t.slots| && t.slots[w].Has(a)
    ensures var u := Clear(t, w);
      && Lookup(u, a) == (if Lookup(t, a) == Some(w) then NextInChain(t, w, a) else Lookup(t, a))
      && Scan(u.slots, a, 0) == (if Scan(t.slots, a, 0) == Some(w) then Scan(t.slots, a, w + 1) else Scan(t.slots, a, 0))
  {
    var u := Clear(t, w);
    var c := t.chains[Hash(a)];
    assert ChainOk(t.slots, c, Hash(a));
    WithoutIs(c, w);
    FirstInSame(t.slots, u.slots, Without(c, w), a);
    if Lookup(t, a) != Some(w) { FirstInWithout(t.slots, c, w, a); }
    var was := Scan(t.slots, a, 0);
    if was == Some(w) {
      ScanFrom(u.slots, a, 0, w + 1);
      ScanAbove(t.slots, u.slots, a, w);
    } else {
      ScanIs(u.slots, a, 0, was.value);
    }
  }

  lemma {:induction false} ScanAbove(s: seq<Slot>, u: seq<Slot>, a: Address, w: nat)
    requires |s| == |u| && w < |s| && forall v :: w < v < |s| ==> s[v] == u[v]
    ensures Scan(s, a, w + 1) == Scan(u, a, w + 1)
    decreases |s| - w
  {
    if w + 1 < |s| { ScanAbove(s, u, a, w + 1); }
  }

  /** A deletion keeps the agreement exactly when the entry deleted is not the one found under its
      address, or the one found next in its chain is the next one up in the table. */
  lemma DeleteKeepsAgreementIff(t: Table, wcid: nat, a: Address)
    requires Sound(t) && Agrees(t) && wcid < |t.slots| && t.slots[wcid].Has(a)
    ensures Agrees(Delete(t, wcid, a).0) <==> (Lookup(t, a) == Some(wcid) ==> NextInChain(t, wcid, a) == Scan(t.slots, a, wcid + 1))
  {
    hide Lookup, Scan, NextInChain;
    ClearAnswers(t, wcid, a);
    assert Lookup(t, a) == Scan(t.slots, a, 0);
    forall b: Address | b != a ensures Lookup(Clear(t, wcid), b) == Scan(Clear(t, wcid).slots, b, 0) {
      ClearKeepsOthers(t, wcid, b);
      assert Lookup(t, b) == Scan(t.slots, b, 0);
    }
  }

  // ---------- runs ----------

  /** What a caller can look at before a step. */
  predicate Safe(t: Table, op: Op)
    requires |t.chains| == HASH_TABLE_SIZE
  {
    match op
    case Ins(a, first) =>
      t.size < |t.slots| && Vacant(t.slots, first) < |t.slots| && Lookup(t, a).Some? ==> Lookup(t, a).value < Vacant(t.slots, first)
    case Del(wcid, a) =>
      wcid < |t.slots| && t.slots[wcid].Has(a) && Lookup(t, a) == Some(wcid) ==> NextInChain(t, wcid, a) == Scan(t.slots, a, wcid + 1)
  }

  /** One step keeps lookups and scans in agreement exactly when it is safe. */
  lemma StepKeepsAgreementIffSafe(t: Table, op: Op)
    requires Sound(t) && Agrees(t)
    ensures Agrees(Apply(t, op)) <==> Safe(t, op)
  {
    hide Agrees, NextInChain, Lookup, Scan;
    match op
    case Ins(a, first) =>
      if t.size < |t.slots| && Vacant(t.slots, first) < |t.slots| { InsertKeepsAgreementIff(t, a, first); }
    case Del(wcid, a) =>
      if wcid < |t.slots| && t.slots[wcid].Has(a) { DeleteKeepsAgreementIff(t, wcid, a); }
  }

  predicate SafeRun(t: Table, ops: seq<Op>)
    requires |t.chains| == HASH_TABLE_SIZE
  {
    forall k :: 0 <= k < |ops| ==> Safe(ApplyAll(t, ops[..k]), ops[k])
  }

  ghost predicate AgreesThroughout(t: Table, ops: seq<Op>)
    requires |t.chains| == HASH_TABLE_SIZE
  {
    forall k :: 0 <= k <= |ops| ==> Agrees(ApplyAll(t, ops[..k]))
  }

  lemma EmptyAgrees(max: nat)
    ensures Agrees(Empty(max))
  {
    forall b: Address ensures Lookup(Empty(max), b) == Scan(Empty(max).slots, b, 0) {
      ScanFrom(Empty(max).slots, b, 0, max);
    }
  }

  lemma OneMore(t: Table, ops: seq<Op>, k: nat)
    requires |t.chains| == HASH_TABLE_SIZE && k < |ops|
    ensures ApplyAll(t, ops[..k + 1]) == Apply(ApplyAll(t, ops[..k]), ops[k])
  {
    assert ops[..k + 1][..k] == ops[..k];
  }

  /** Over any run from the empty table, lookups answer as scans at every moment exactly when every
      step is safe in the table it meets. */
  lemma RunAgreesIffSafe(max: nat, ops: seq<Op>)
    ensures AgreesThroughout(Empty(max), ops) <==> SafeRun(Empty(max), ops)
  {
    hide Agrees, Safe, ApplyAll, Apply, Empty;
    var t := Empty(max);
    if SafeRun(t, ops) {
      SafeAgrees(max, ops, |ops|);
    }
    if AgreesThroughout(t, ops) {
      forall k | 0 <= k < |ops| ensures Safe(ApplyAll(t, ops[..k]), ops[k]) {
        RunIsSound(max, ops[..k]);
        OneMore(t, ops, k);
        StepKeepsAgreementIffSafe(ApplyAll(t, ops[..k]), ops[k]);
        assert Agrees(ApplyAll(t, ops[..k + 1]));
      }
    }
  }

  lemma {:induction false} SafeAgrees(max: nat, ops: seq<Op>, n: nat)
    requires n <= |ops| && SafeRun(Empty(max), ops)
    ensures forall k :: 0 <= k <= n ==> Agrees(ApplyAll(Empty(max), ops[..k]))
  {
    hide Agrees, Safe, Apply, Empty;
    var t := Empty(max);
    if n == 0 {
      EmptyAgrees(max);
      assert ops[..0] == [];
    } else {
      SafeAgrees(max, ops, n - 1);
      RunIsSound(max, ops[..n - 1]);
      OneMore(t, ops, n - 1);
      StepKeepsAgreementIffSafe(ApplyAll(t, ops[..n - 1]), ops[n - 1]);
    }
  }

  // ---------- agreement that outlasts deletions ----------

  /** In every chain, entries of one address stand in table order. */
  ghost predicate Ordered(t: Table)
    requires |t.chains| == HASH_TABLE_SIZE
  {
    forall a: Address :: InOrder(t.slots, t.chains[Hash(a)], a)
  }

  ghost predicate InOrder(s: seq<Slot>, c: seq<nat>, a: Address) {
    forall i, j :: 0 <= i < j < |c| && c[i] < |s| && c[j] < |s| && s[c[i]].Has(a) && s[c[j]].Has(a) ==> c[i] < c[j]
  }

  lemma {:induction false} FirstInPlace(s: seq<Slot>, c: seq<nat>, a: Address) returns (i: nat)
    requires FirstIn(s, c, a).Some?
    ensures i < |c| && FirstIn(s, c, a) == Some(c[i])
    ensures forall j :: 0 <= j < i && c[j] < |s| ==> !s[c[j]].Has(a)
  {
    if c[0] < |s| && s[c[0]].Has(a) {
      i := 0;
    } else {
      i := FirstInPlace(s, c[1..], a);
      i := i + 1;
      forall j | 0 <= j < i && c[j] < |s| ensures !s[c[j]].Has(a) {
        if j > 0 { assert c[j] == c[1..][j - 1]; }
      }
    }
  }

  lemma InOrderAt(s: seq<Slot>, c: seq<nat>, a: Address, i: nat, j: nat)
    requires InOrder(s, c, a) && i < j < |c| && c[i] < |s| && c[j] < |s| && s[c[i]].Has(a) && s[c[j]].Has(a)
    ensures c[i] < c[j]
  {
  }

  /** The place of a live entry in the chain of its address. */
  lemma PlaceOf(t: Table, v: nat, a: Address) returns (j: nat)
    requires Sound(t) && v < |t.slots| && t.slots[v].Has(a)
    ensures j < |t.chains[Hash(a)]| && t.chains[Hash(a)][j] == v
  {
    var c := t.chains[Hash(a)];
    assert v in c;
    j :| 0 <= j < |c| && c[j] == v;
  }

  lemma FirstIsLowest(t: Table, a: Address, v: nat)
    requires Sound(t) && InOrder(t.slots, t.chains[Hash(a)], a)
    requires Lookup(t, a).Some? && v < |t.slots| && t.slots[v].Has(a)
    ensures Lookup(t, a).value <= v
  {
    var i := FirstInPlace(t.slots, t.chains[Hash(a)], a);
    var j := PlaceOf(t, v, a);
    if i < j { InOrderAt(t.slots, t.chains[Hash(a)], a, i, j); }
  }

  lemma OrderedAgrees(t: Table)
    requires Sound(t) && Ordered(t)
    ensures Agrees(t)
  {
    forall a: Address ensures Lookup(t, a) == Scan(t.slots, a, 0) {
      OrderedFinds(t, a);
    }
  }

  lemma OrderedFinds(t: Table, a: Address)
    requires Sound(t) && InOrder(t.slots, t.chains[Hash(a)], a)
    ensures Lookup(t, a) == Scan(t.slots, a, 0)
  {
    hide InOrder;
    LookupFindsIffPresent(t, a);
    if Lookup(t, a).Some? { FirstIsLowest(t, a, Scan(t.slots, a, 0).value); }
  }

  /** Insertion keeps the order exactly when no entry of that address lies above the place taken. */
  lemma InsertKeepsOrderIff(t: Table, a: Address, first: nat)
    requires Sound(t) && Ordered(t) && t.size < |t.slots| && Vacant(t.slots, first) < |t.slots|
    ensures Ordered(Insert(t, a, first).0) <==> forall v :: 0 <= v < |t.slots| && t.slots[v].Has(a) ==> v < Vacant(t.slots, first)
  {
    hide InOrder;
    var w := Vacant(t.slots, first);
    var u := Fill(t, w, a);
    if v :| 0 <= v < |t.slots| && t.slots[v].Has(a) && v >= w {
      FillOutOfOrder(t, w, a, v);
    } else {
      forall b: Address ensures InOrder(u.slots, u.chains[Hash(b)], b) {
        FillInOrder(t, w, a, b);
      }
    }
  }

  lemma FillOutOfOrder(t: Table, w: nat, a: Address, v: nat)
    requires Sound(t) && w <= v < |t.slots| && !t.slots[w].live && t.slots[v].Has(a)
    ensures var u := Fill(t, w, a); !InOrder(u.slots, u.chains[Hash(a)], a)
  {
    var u := Fill(t, w, a);
    var c := t.chains[Hash(a)];
    var i := PlaceOf(t, v, a);
    assert u.chains[Hash(a)] == c + [w] && (c + [w])[i] == v && (c + [w])[|c|] == w;
  }

  lemma FillInOrder(t: Table, w: nat, a: Address, b: Address)
    requires Sound(t) && Ordered(t) && w < |t.slots| && !t.slots[w].live
    requires forall v :: 0 <= v < |t.slots| && t.slots[v].Has(a) ==> v < w
    ensures var u := Fill(t, w, a); InOrder(u.slots, u.chains[Hash(b)], b)
  {
    var u := Fill(t, w, a);
    var c, d := t.chains[Hash(b)], u.chains[Hash(b)];
    assert ChainOk(t.slots, c, Hash(b)) && InOrder(t.slots, c, b);
    forall i, j | 0 <= i < j < |d| && d[i] < |u.slots| && d[j] < |u.slots| && u.slots[d[i]].Has(b) && u.slots[d[j]].Has(b) ensures d[i] < d[j] {
      assert i < |c| && d[i] == c[i];
      assert c[i] in c;
      if j < |c| { assert d[j] == c[j] && c[j] in c; }
    }
  }

  /** Removing an entry from a chain takes out one place, or none. */
  lemma {:induction false} WithoutCut(c: seq<nat>, w: nat) returns (p: nat)
    ensures p <= |c| && |Without(c, w)| == (if p < |c| then |c| - 1 else |c|)
    ensures p < |c| ==> c[p] == w
    ensures forall v :: 0 <= v < p ==> c[v] != w && Without(c, w)[v] == c[v]
    ensures forall v :: p <= v < |c| - 1 ==> Without(c, w)[v] == c[v + 1]
  {
    if c == [] {
      p := 0;
    } else if c[0] == w {
      p := 0;
    } else {
      p := WithoutCut(c[1..], w);
      p := p + 1;
    }
  }

  lemma WithoutInOrder(s: seq<Slot>, u: seq<Slot>, c: seq<nat>, w: nat, b: Address)
    requires InOrder(s, c, b) && |u| == |s| && forall v :: 0 <= v < |s| && u[v].Has(b) ==> s[v].Has(b)
    ensures InOrder(u, Without(c, w), b)
  {
    hide Without;
    var p := WithoutCut(c, w);
    var d := Without(c, w);
    forall i, j | 0 <= i < j < |d| && d[i] < |u| && d[j] < |u| && u[d[i]].Has(b) && u[d[j]].Has(b) ensures d[i] < d[j] {
      InOrderAt(s, c, b, if i < p then i else i + 1, if j < p then j else j + 1);
    }
  }

  lemma ClearInOrder(t: Table, w: nat, b: Address)
    requires Sound(t) && Ordered(t) && w < |t.slots|
    ensures var u := Clear(t, w); InOrder(u.slots, u.chains[Hash(b)], b)
  {
    hide InOrder, Without;
    var u := Clear(t, w);
    var c := t.chains[Hash(b)];
    assert InOrder(t.slots, c, b);
    WithoutInOrder(t.slots, u.slots, c, w, b);
    if Hash(t.slots[w].addr) != Hash(b) { SameInOrder(t.slots, u.slots, c, b); }
  }

  lemma SameInOrder(s: seq<Slot>, u: seq<Slot>, c: seq<nat>, b: Address)
    requires InOrder(s, c, b) && |u| == |s| && forall v :: 0 <= v < |s| && u[v].Has(b) ==> s[v].Has(b)
    ensures InOrder(u, c, b)
  {
  }

  /** Deletion always keeps the order. */
  lemma DeleteKeepsOrder(t: Table, wcid: nat, a: Address)
    requires Sound(t) && Ordered(t)
    ensures Ordered(Delete(t, wcid, a).0)
  {
    if wcid < |t.slots| && t.slots[wcid].Has(a) {
      var u := Clear(t, wcid);
      forall b: Address ensures InOrder(u.slots, u.chains[Hash(b)], b) {
        ClearInOrder(t, wcid, b);
      }
    }
  }

  // ---------- every sequence of deletions ----------

  predicate OnlyDeletes(ops: seq<Op>) {
    forall k :: 0 <= k < |ops| ==> ops[k].Del?
  }

  /** Whatever is deleted, and however often, lookups and scans agree. */
  ghost predicate AgreesAsEntriesGo(t: Table)
    requires |t.chains| == HASH_TABLE_SIZE
  {
    forall ops: seq<Op> :: OnlyDeletes(ops) ==> Agrees(ApplyAll(t, ops))
  }

  lemma {:induction false} ApplyFirst(t: Table, op: Op, ops: seq<Op>)
    requires |t.chains| == HASH_TABLE_SIZE
    ensures ApplyAll(t, [op] + ops) == ApplyAll(Apply(t, op), ops)
  {
    hide Apply;
    var all := [op] + ops;
    if ops == [] {
      assert all[..0] == [] && all == [op];
    } else {
      assert all[..|all| - 1] == [op] + ops[..|ops| - 1];
      ApplyFirst(t, op, ops[..|ops| - 1]);
    }
  }

  lemma {:induction false} DeletesKeepOrder(t: Table, ops: seq<Op>)
    requires Sound(t) && Ordered(t) && OnlyDeletes(ops)
    ensures var u := ApplyAll(t, ops); Sound(u) && Ordered(u)
  {
    hide Ordered, Delete;
    if ops != [] {
      var n := |ops| - 1;
      DeletesKeepOrder(t, ops[..n]);
      ApplyKeeps(ApplyAll(t, ops[..n]), ops[n]);
      DeleteKeepsOrder(ApplyAll(t, ops[..n]), ops[n].wcid, ops[n].a);
    }
  }

  /** Places i and j of the chain of an address hold entries with it, the higher first. */
  ghost predicate Disorder(t: Table, a: Address, i: nat, j: nat)
    requires |t.chains| == HASH_TABLE_SIZE
  {
    var c := t.chains[Hash(a)];
    i < j < |c| && c[j] <= c[i] < |t.slots| && t.slots[c[i]].Has(a) && t.slots[c[j]].Has(a)
  }

  lemma DisorderMoves(t: Table, a: Address, i: nat, j: nat, p: nat)
    requires Sound(t) && Disorder(t, a, i, j) && p < i && t.chains[Hash(a)][p] < |t.slots|
    requires t.slots[t.chains[Hash(a)][p]].Has(a)
    ensures Disorder(Clear(t, t.chains[Hash(a)][p]), a, i - 1, j - 1)
  {
    hide Without;
    var c := t.chains[Hash(a)];
    assert ChainOk(t.slots, c, Hash(a));
    var q := WithoutCut(c, c[p]);
    assert c[i] != c[p] && c[j] != c[p];
  }

  /** Two entries of one address out of order in their chain: with those before them deleted, the
      lookup finds the higher. */
  lemma {:induction false} DisorderShows(t: Table, a: Address, i: nat, j: nat) returns (ops: seq<Op>)
    requires Sound(t) && Disorder(t, a, i, j)
    ensures OnlyDeletes(ops) && !Agrees(ApplyAll(t, ops))
    decreases i
  {
    hide Without, Agrees;
    var c := t.chains[Hash(a)];
    var p := FirstCarrier(t, a, i, j);
    if p == i {
      ops := [];
    } else {
      DisorderMoves(t, a, i, j, p);
      ApplyKeeps(t, Del(c[p], a));
      var rest := DisorderShows(Clear(t, c[p]), a, i - 1, j - 1);
      ApplyFirst(t, Del(c[p], a), rest);
      ops := [Del(c[p], a)] + rest;
    }
  }

  lemma FirstCarrier(t: Table, a: Address, i: nat, j: nat) returns (p: nat)
    requires Sound(t) && Disorder(t, a, i, j)
    ensures p <= i && t.chains[Hash(a)][p] < |t.slots| && t.slots[t.chains[Hash(a)][p]].Has(a)
    ensures p == i ==> !Agrees(t)
  {
    var c := t.chains[Hash(a)];
    assert ChainOk(t.slots, c, Hash(a));
    p := FirstInPlace(t.slots, c, a);
    if p == i { assert Lookup(t, a) != Scan(t.slots, a, 0); }
  }

  /** Agreement outlasts every sequence of deletions exactly when the chains are in table order. */
  lemma AgreesAsEntriesGoIffOrdered(t: Table)
    requires Sound(t)
    ensures AgreesAsEntriesGo(t) <==> Ordered(t)
  {
    hide Agrees, Apply, InOrder;
    if Ordered(t) {
      forall ops: seq<Op> | OnlyDeletes(ops) ensures Agrees(ApplyAll(t, ops)) {
        DeletesKeepOrder(t, ops);
        OrderedAgrees(ApplyAll(t, ops));
      }
    } else {
      var a: Address :| !InOrder(t.slots, t.chains[Hash(a)], a);
      var i, j := DisorderIn(t, a);
      var ops := DisorderShows(t, a, i, j);
    }
  }

  lemma DisorderIn(t: Table, a: Address) returns (i: nat, j: nat)
    requires |t.chains| == HASH_TABLE_SIZE && !InOrder(t.slots, t.chains[Hash(a)], a)
    ensures Disorder(t, a, i, j)
  {
    var c := t.chains[Hash(a)];
    i, j :| 0 <= i < j < |c| && c[i] < |t.slots| && c[j] < |t.slots| && t.slots[c[i]].Has(a) && t.slots[c[j]].Has(a) && c[i] >= c[j];
  }
}
