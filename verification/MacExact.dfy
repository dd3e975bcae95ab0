/** What one insertion and one deletion do to the entries and to every lookup. */
module MacExact {

  import opened Options
  import opened Sequences
  import opened MacSpec

  lemma FirstInAppended(slots: seq<Slot>, c: seq<nat>, w: nat, a: Address)
    requires w < |slots|
    ensures FirstIn(slots, c + [w], a) ==
      if FirstIn(slots, c, a).Some? then FirstIn(slots, c, a) else if slots[w].Has(a) then Some(w) else None
  {
    if c == [] {
      assert c + [w] == [w] && [w][1..] == [];
    } else {
      assert (c + [w])[1..] == c[1..] + [w];
      FirstInAppended(slots, c[1..], w, a);
    }
  }

  /** Only the entries of the chain matter. */
  lemma FirstInSame(slots: seq<Slot>, other: seq<Slot>, c: seq<nat>, a: Address)
    requires |slots| == |other| && forall w :: w in c && w < |slots| ==> slots[w] == other[w]
    ensures FirstIn(slots, c, a) == FirstIn(other, c, a)
  {
    if c != [] {
      assert forall w :: w in c[1..] ==> w in c;
      FirstInSame(slots, other, c[1..], a);
    }
  }

  lemma ChainFacts(t: Table, a: Address)
    requires Sound(t)
    ensures forall w :: w in t.chains[Hash(a)] ==> w < |t.slots| && t.slots[w].live && Hash(t.slots[w].addr) == Hash(a)
  {
    assert ChainOk(t.slots, t.chains[Hash(a)], Hash(a));
  }

  /** The count reaches the size of the table only when every entry is live. */
  lemma {:induction false} LiveCount(slots: seq<Slot>)
    ensures |Live(slots)| <= |slots|
    ensures |Live(slots)| == |slots| ==> forall w :: 0 <= w < |slots| ==> slots[w].live
  {
    if slots == [] {
      assert Live(slots) == {};
    } else {
      var n := |slots| - 1;
      var most := slots[..n];
      LiveCount(most);
      assert forall w :: 0 <= w < n ==> most[w] == slots[w];
      assert Live(slots) == if slots[n].live then Live(most) + {n} else Live(most);
    }
  }

  /** An insertion is refused exactly when no entry from the first usable one on is vacant; otherwise the lowest of
      them takes the address, and no other entry changes. */
  lemma InsertTakesLowestVacant(t: Table, a: Address, first: nat)
    requires Sound(t)
    ensures var (u, r) := Insert(t, a, first);
      && (r.Some? <==> exists w :: first <= w < |t.slots| && !t.slots[w].live)
      && (r.None? ==> u == t)
      && (r.Some? ==>
            && first <= r.value < |t.slots| && !t.slots[r.value].live
            && (forall w :: first <= w < r.value ==> t.slots[w].live)
            && u.slots == t.slots[r.value := Slot(true, a)])
  {
    LiveCount(t.slots);
  }

  /** The new entry is found by its address unless an older one is, and no other lookup changes. */
  lemma InsertChangesOneLookup(t: Table, a: Address, first: nat, b: Address)
    requires Sound(t)
    ensures var (u, r) := Insert(t, a, first);
      Lookup(u, b) == if b == a && Lookup(t, a).None? then r else Lookup(t, b)
  {
    var (u, r) := Insert(t, a, first);
    if r.Some? {
      var w := r.value;
      ChainFacts(t, b);
      ChainFacts(t, a);
      assert u.slots == t.slots[w := Slot(true, a)];
      FirstInSame(t.slots, u.slots, t.chains[Hash(b)], b);
      if Hash(b) == Hash(a) {
        FirstInAppended(u.slots, t.chains[Hash(a)], w, b);
      }
    }
  }

  /** An entry that is not live is never found, so taking it out of a chain changes nothing. */
  lemma FirstInWithout(slots: seq<Slot>, c: seq<nat>, w: nat, a: Address)
    requires w < |slots| && !slots[w].live
    ensures FirstIn(slots, Without(c, w), a) == FirstIn(slots, c, a)
  {
    if c != [] {
      FirstInWithout(slots, c[1..], w, a);
      if c[0] != w {
        assert Without(c, w)[1..] == Without(c[1..], w);
      }
    }
  }

  lemma FirstInCleared(slots: seq<Slot>, c: seq<nat>, w: nat, a: Address)
    requires w < |slots| && FirstIn(slots, c, a) != Some(w)
    ensures FirstIn(slots[w := slots[w].(live := false)], c, a) == FirstIn(slots, c, a)
  {
    if c != [] && !(c[0] < |slots| && slots[c[0]].Has(a)) {
      FirstInCleared(slots, c[1..], w, a);
    }
  }

  /** A deletion is refused exactly for an index past the table; it vacates the entry named if that has the address,
      and otherwise changes nothing. */
  lemma DeleteVacatesOne(t: Table, w: nat, a: Address)
    requires Sound(t)
    ensures var (u, ok) := Delete(t, w, a);
      && (ok <==> w < |t.slots|)
      && (ok && t.slots[w].Has(a) ==> u.slots == t.slots[w := t.slots[w].(live := false)] && u.size == t.size - 1)
      && (!ok || !t.slots[w].Has(a) ==> u == t)
  {
  }

  /** The lookups that did not answer with the entry deleted answer as before. */
  lemma DeleteChangesOneLookup(t: Table, w: nat, a: Address, b: Address)
    requires Sound(t) && Lookup(t, b) != Some(w)
    ensures Lookup(Delete(t, w, a).0, b) == Lookup(t, b)
  {
    if w < |t.slots| && t.slots[w].Has(a) {
      var slots := t.slots[w := t.slots[w].(live := false)];
      FirstInCleared(t.slots, t.chains[Hash(b)], w, b);
      FirstInWithout(slots, t.chains[Hash(b)], w, b);
    }
  }
}
