/** The station table on the heap: entries in a flat array, chained by address hash in place. */
module MacTable {
  import opened MacSpec
  import opened Options
  import opened Sequences

  datatype EntryType = ENTRY_NONE | ENTRY_CLIENT | ENTRY_DLS

  class Entry {
    var entryType: EntryType
    var addr: Address
    var aid: nat
    var next: Entry?

    constructor ()
      ensures entryType == ENTRY_NONE && next == null && addr == [0, 0, 0, 0, 0, 0]
    {
      entryType, addr, aid, next := ENTRY_NONE, [0, 0, 0, 0, 0, 0], 0, null;
    }
  }

  class MacTab {
    const content: array<Entry>
    const hash: array<Entry?>
    var size: int
    /** The chains as entry numbers. */
    ghost var chains: seq<seq<nat>>

    /** An empty table of max entries. */
    constructor (max: nat)
      ensures Valid() && View() == Empty(max)
      ensures fresh(content) && fresh(hash) && forall e <- content[..] :: fresh(e)
    {
      var entries := BuildEntries(max);
      content := entries;
      hash := new Entry?[HASH_TABLE_SIZE](_ => null);
      size := 0;
      chains := seq(HASH_TABLE_SIZE, _ => []);
      new;
      EmptyIsSound(max);
      assert Slots() == Empty(max).slots;
    }

    ghost function SlotsTo(n: nat): (s: seq<Slot>)
      requires n <= content.Length
      reads content, content[..]`entryType, content[..]`addr
      ensures |s| == n
      ensures forall w {:trigger s[w]} :: 0 <= w < n ==> s[w] == Slot(content[w].entryType != ENTRY_NONE, content[w].addr)
    {
      if n == 0 then [] else SlotsTo(n - 1) + [Slot(content[n - 1].entryType != ENTRY_NONE, content[n - 1].addr)]
    }

    ghost function Slots(): (s: seq<Slot>)
      reads content, content[..]`entryType, content[..]`addr
      ensures |s| == content.Length
    {
      SlotsTo(content.Length)
    }

    ghost function View(): Table
      reads this, content, content[..]`entryType, content[..]`addr
    {
      Table(Slots(), chains, size)
    }

    /** The entry numbered c[i]; null past the end of the chain. */
    ghost function Node(c: seq<nat>, i: nat): Entry?
      reads content
    {
      if i < |c| && c[i] < content.Length then content[c[i]] else null
    }

    ghost predicate ChainLinked(c: seq<nat>)
      reads content, content[..]`next
    {
      forall i {:trigger c[i]} :: 0 <= i < |c| ==> c[i] < content.Length && content[c[i]].next == Node(c, i + 1)
    }

    /** The links run along the chains. */
    ghost predicate Linked()
      reads this`chains, content, hash, content[..]`next
    {
      && hash.Length == HASH_TABLE_SIZE && |chains| == HASH_TABLE_SIZE
      && (forall h {:trigger hash[h]} :: 0 <= h < HASH_TABLE_SIZE ==> hash[h] == Node(chains[h], 0))
      && (forall h {:trigger chains[h]} :: 0 <= h < HASH_TABLE_SIZE ==> ChainLinked(chains[h]))
    }

    ghost predicate Valid()
      reads this, content, hash, content[..]
    {
      && AllDistinct()
      && Linked()
      && Sound(View())
    }

    /** MacTableLookup. */
    method Lookup(a: Address) returns (entry: Entry?)
      requires Valid()
      ensures entry == match MacSpec.Lookup(View(), a) case Some(w) => content[w] case None => null
    {
      hide Sound, Hash;
      ghost var c := chains[Hash(a)];
      ghost var i: nat := 0;
      ChainsApart();
      entry := hash[Hash(a)];
      assert c[0..] == c;
      while entry != null && entry.entryType != ENTRY_NONE
        invariant i <= |c| && entry == Node(c, i)
        invariant FirstIn(Slots(), c[i..], a) == MacSpec.Lookup(View(), a)
        decreases |c| - i
      {
        assert c[i..][1..] == c[i + 1..] && c[i..][0] == c[i];
        if entry.addr == a {
          return;
        }
        entry := entry.next;
        i := i + 1;
      }
    }

    /** No entry is in two places of the chains, nor is a vacant one. */
    ghost predicate Apart()
      reads this
    {
      && |chains| == HASH_TABLE_SIZE
      && (forall h, i, k, j {:trigger chains[h][i], chains[k][j]} ::
            0 <= h < HASH_TABLE_SIZE && 0 <= i < |chains[h]| && 0 <= k < HASH_TABLE_SIZE && 0 <= j < |chains[k]| && chains[h][i] == chains[k][j]
            ==> h == k && i == j)
    }

    lemma ChainsApart()
      requires Valid()
      ensures Apart()
      ensures forall h, i {:trigger chains[h][i]} :: 0 <= h < HASH_TABLE_SIZE && 0 <= i < |chains[h]| ==> content[chains[h][i]].entryType != ENTRY_NONE
    {
      var t := View();
      forall h, i, k, j | 0 <= h < HASH_TABLE_SIZE && 0 <= i < |chains[h]| && 0 <= k < HASH_TABLE_SIZE && 0 <= j < |chains[k]| && chains[h][i] == chains[k][j]
        ensures h == k && i == j
      {
        assert ChainOk(t.slots, chains[h], h) && ChainOk(t.slots, chains[k], k);
        assert chains[h][i] in chains[h] && chains[k][j] in chains[k];
      }
      forall h, i | 0 <= h < HASH_TABLE_SIZE && 0 <= i < |chains[h]| ensures content[chains[h][i]].entryType != ENTRY_NONE {
        assert ChainOk(t.slots, chains[h], h);
        assert chains[h][i] in chains[h];
      }
    }

    /** The walk to the end of a chain. */
    method Tail(h: nat) returns (curr: Entry)
      requires Linked() && h < HASH_TABLE_SIZE && chains[h] != []
      ensures curr == content[chains[h][|chains[h]| - 1]]
    {
      ghost var c := chains[h];
      assert ChainLinked(c);
      curr := hash[h];
      ghost var i: nat := 0;
      while curr.next != null
        invariant i < |c| && curr == content[c[i]]
        decreases |c| - i
      {
        curr := curr.next;
        i := i + 1;
      }
    }

    /** The entry put at the end of its chain. */
    method Append(h: nat, entry: Entry, ghost w: nat)
      requires AllDistinct() && Linked() && Apart() && h < HASH_TABLE_SIZE && w < content.Length && entry == content[w] && entry.next == null
      requires forall k, i {:trigger chains[k][i]} :: 0 <= k < HASH_TABLE_SIZE && 0 <= i < |chains[k]| ==> chains[k][i] != w
      modifies this`chains, hash, content[..]`next
      ensures chains == old(chains)[h := old(chains)[h] + [w]] && Linked()
    {
      hide ChainLinked, Apart, Node, AllDistinct;
      AppendLink(h, entry, w);
      chains := chains[h := chains[h] + [w]];
    }

    method AppendLink(h: nat, entry: Entry, ghost w: nat)
      requires AllDistinct() && Linked() && Apart() && h < HASH_TABLE_SIZE && w < content.Length && entry == content[w] && entry.next == null
      requires forall k, i {:trigger chains[k][i]} :: 0 <= k < HASH_TABLE_SIZE && 0 <= i < |chains[k]| ==> chains[k][i] != w
      modifies hash, content[..]`next
      ensures forall k :: 0 <= k < HASH_TABLE_SIZE && k != h ==> hash[k] == old(hash[k])
      ensures forall k {:trigger chains[k]} :: 0 <= k < HASH_TABLE_SIZE && k != h ==> ChainLinked(chains[k])
      ensures ChainLinked(chains[h] + [w]) && hash[h] == Node(chains[h] + [w], 0)
    {
      ghost var c := chains[h];
      assert ChainLinked(c);
      if hash[h] == null {
        hash[h] := entry;
      } else {
        var curr := Tail(h);
        LastEntry(h);
        curr.next := entry;
      }
    }

    /** The last entry of a chain stands in no other. */
    lemma LastEntry(h: nat)
      requires Apart() && h < HASH_TABLE_SIZE && chains[h] != []
      ensures forall k, i {:trigger chains[k][i]} :: 0 <= k < HASH_TABLE_SIZE && 0 <= i < |chains[k]| && (k != h || i + 1 < |chains[h]|) ==>
        chains[k][i] != chains[h][|chains[h]| - 1]
    {
    }

    ghost predicate AllDistinct()
      reads content
    {
      forall v, w :: 0 <= v < w < content.Length ==> content[v] != content[w]
    }

    /** A vacant entry made a live one. */
    method Initialise(entry: Entry, i: nat, a: Address, dls: bool)
      requires AllDistinct() && i < content.Length && entry == content[i]
      modifies entry
      ensures Slots() == old(Slots())[i := Slot(true, a)]
      ensures entry.aid == i && entry.entryType == (if dls then ENTRY_DLS else ENTRY_CLIENT) && entry.next == null
    {
      entry.next := null;
      entry.entryType := if dls then ENTRY_DLS else ENTRY_CLIENT;
      entry.addr, entry.aid := a, i;
    }

    /** The scan for a vacant entry. */
    method FindVacant(first: nat) returns (i: nat)
      ensures i < content.Length ==> content[i].entryType == ENTRY_NONE && !Slots()[i].live
      ensures i == Vacant(Slots(), first) || (i >= content.Length && Vacant(Slots(), first) >= content.Length)
    {
      i := first;
      while i < content.Length && content[i].entryType != ENTRY_NONE
        invariant Vacant(Slots(), i) == Vacant(Slots(), first)
        decreases content.Length - i
      {
        i := i + 1;
      }
    }

    /** MacTableInsertEntry: the station becomes a client, or a direct-link peer. */
    method InsertEntry(a: Address, dls: bool, first: nat) returns (entry: Entry?)
      requires Valid()
      modifies this, hash, content[..]
      ensures Valid() && View() == Insert(old(View()), a, first).0
      ensures match Insert(old(View()), a, first).1
        case None => entry == null
        case Some(w) => w < content.Length && entry == content[w] && entry.aid == w && entry.entryType == if dls then ENTRY_DLS else ENTRY_CLIENT
    {
      hide Sound, Hash, Slots, ChainOk, Vacant;
      entry := null;
      if size >= content.Length {
        return;
      }
      ghost var t := View();
      var i := FindVacant(first);
      if i < content.Length {
        entry := content[i];
        ChainsApart();
        FillKeeps(t, i, a);
        Initialise(entry, i, a, dls);
        size := size + 1;
        Append(Hash(a), entry, i);
        assert View() == Fill(t, i, a);
      }
    }

    /** The walk to an entry in its chain: what stands before it. */
    method Probe(h: nat, entry: Entry, ghost p: nat) returns (prev: Entry?)
      requires AllDistinct() && Linked() && Apart() && h < HASH_TABLE_SIZE
      requires p < |chains[h]| && entry == content[chains[h][p]]
      ensures prev == if p == 0 then null else content[chains[h][p - 1]]
    {
      ghost var c := chains[h];
      prev := null;
      var probe := hash[h];
      ghost var i: nat := 0;
      while probe != null && probe != entry
        invariant i <= p && probe == content[c[i]] && prev == if i == 0 then null else content[c[i - 1]]
        decreases p - i
      {
        prev := probe;
        probe := probe.next;
        i := i + 1;
      }
    }

    /** The link to an entry led past it. */
    method Bypass(h: nat, entry: Entry, ghost p: nat)
      requires AllDistinct() && Linked() && Apart() && h < HASH_TABLE_SIZE
      requires p < |chains[h]| && chains[h][p] < content.Length && entry == content[chains[h][p]]
      modifies hash, content[..]`next
      ensures forall k :: 0 <= k < HASH_TABLE_SIZE && k != h ==> hash[k] == old(hash[k])
      ensures forall k {:trigger chains[k]} :: 0 <= k < HASH_TABLE_SIZE && k != h ==> ChainLinked(chains[k])
      ensures ChainLinked(RemoveAt(chains[h], p)) && hash[h] == Node(RemoveAt(chains[h], p), 0)
    {
      var prev := Probe(h, entry, p);
      if prev == null {
        hash[h] := entry.next;
      } else {
        prev.next := entry.next;
      }
      OtherChains(h, p);
      ChainWithout(chains[h], p);
    }

    /** The entry taken out of its chain. */
    method Unchain(h: nat, entry: Entry, ghost w: nat, ghost p: nat)
      requires AllDistinct() && Linked() && Apart() && h < HASH_TABLE_SIZE
      requires p < |chains[h]| && chains[h][p] == w && w < content.Length && entry == content[w]
      modifies this`chains, hash, content[..]`next
      ensures chains == old(chains)[h := Without(old(chains)[h], w)] && Linked()
    {
      hide Apart, Without, AllDistinct, RemoveAt, ChainLinked, Node;
      ghost var c := chains[h];
      OtherChains(h, p);
      WithoutAt(c, w, p);
      InTable(h, p);
      Bypass(h, entry, p);
      chains := chains[h := RemoveAt(c, p)];
    }

    /** A chain without its p-th entry is linked when the link before that leads past it. */
    lemma ChainWithout(c: seq<nat>, p: nat)
      requires p < |c| && forall i :: 0 <= i < |c| ==> c[i] < content.Length
      requires forall i {:trigger c[i]} :: 0 <= i < |c| && i + 1 != p ==> content[c[i]].next == Node(c, i + 1)
      requires p > 0 ==> content[c[p - 1]].next == Node(c, p + 1)
      ensures ChainLinked(RemoveAt(c, p)) && Node(RemoveAt(c, p), 0) == Node(c, if p == 0 then 1 else 0)
    {
      var r := RemoveAt(c, p);
      forall i | 0 <= i < |r| ensures r[i] < content.Length && content[r[i]].next == Node(r, i + 1) {
        assert r[i] == c[if i < p then i else i + 1];
      }
    }

    lemma InTable(h: nat, p: nat)
      requires Linked() && h < HASH_TABLE_SIZE && p < |chains[h]|
      ensures chains[h][p] < content.Length
    {
      assert ChainLinked(chains[h]);
    }

    lemma OtherChains(h: nat, p: nat)
      requires Apart() && h < HASH_TABLE_SIZE && p < |chains[h]|
      ensures forall i, j :: 0 <= i < j < |chains[h]| ==> chains[h][i] != chains[h][j]
      ensures p > 0 ==> forall k, i {:trigger chains[k][i]} :: 0 <= k < HASH_TABLE_SIZE && 0 <= i < |chains[k]| && k != h ==> chains[k][i] != chains[h][p - 1]
    {
    }

    method Vacate(entry: Entry, w: nat)
      requires AllDistinct() && w < content.Length && entry == content[w]
      modifies entry`entryType
      ensures Slots() == old(Slots())[w := old(Slots())[w].(live := false)]
    {
      entry.entryType := ENTRY_NONE;
    }

    lemma LiveIsChained(w: nat)
      returns (p: nat)
      requires Valid() && w < content.Length && content[w].entryType != ENTRY_NONE
      ensures p < |chains[Hash(content[w].addr)]| && chains[Hash(content[w].addr)][p] == w
      ensures Slots()[w] == Slot(true, content[w].addr)
    {
      assert Slots()[w].live;
      p :| p < |chains[Hash(content[w].addr)]| && chains[Hash(content[w].addr)][p] == w;
    }

    /** MacTableDeleteEntry. */
    method DeleteEntry(wcid: nat, a: Address) returns (ok: bool)
      requires Valid()
      modifies this, hash, content[..]
      ensures Valid() && (View(), ok) == Delete(old(View()), wcid, a)
    {
      hide Sound, Hash, Slots, ChainOk, Without;
      if wcid >= content.Length {
        return false;
      }
      ok := true;
      var entry := content[wcid];
      SlotIs(wcid);
      if entry.entryType != ENTRY_NONE {
        if entry.addr == a {
          ghost var t := View();
          ghost var p := LiveIsChained(wcid);
          ChainsApart();
          ClearKeeps(t, wcid);
          Unchain(Hash(a), entry, wcid, p);
          Vacate(entry, wcid);
          size := size - 1;
          assert View() == Clear(t, wcid);
        }
      }
    }

    lemma SlotIs(w: nat)
      requires w < content.Length
      ensures Slots()[w] == Slot(content[w].entryType != ENTRY_NONE, content[w].addr)
    {
    }

    /** MacTableReset: only entry 0 is spared. */
    method Reset()
      requires Valid()
      modifies this, hash, content[..]
      ensures Valid() && forall w :: 1 <= w < content.Length ==> !Slots()[w].live
      ensures content.Length > 0 ==> Slots()[0] == old(Slots()[0])
    {
      hide Sound, Hash, Slots, ChainOk, Without, Linked;
      var i := 1;
      while i < content.Length
        invariant Valid() && i >= 1 && forall w :: 1 <= w < i && w < content.Length ==> !Slots()[w].live
        invariant content.Length > 0 ==> Slots()[0] == old(Slots()[0])
      {
        SlotIs(i);
        var _ := DeleteEntry(i, content[i].addr);
        i := i + 1;
      }
    }
  }

  method BuildEntries(max: nat) returns (entries: array<Entry>)
    ensures fresh(entries) && entries.Length == max
    ensures forall v, w :: 0 <= v < w < max ==> entries[v] != entries[w]
    ensures forall v {:trigger entries[v]} :: 0 <= v < max ==>
      fresh(entries[v]) && entries[v].entryType == ENTRY_NONE && entries[v].addr == [0, 0, 0, 0, 0, 0] && entries[v].next == null
  {
    var spare := new Entry();
    entries := new Entry[max](_ => spare);
    for i := 0 to max
      invariant forall v, w :: 0 <= v < w < i ==> entries[v] != entries[w]
      invariant forall v {:trigger entries[v]} :: 0 <= v < max ==>
        fresh(entries[v]) && entries[v].entryType == ENTRY_NONE && entries[v].addr == [0, 0, 0, 0, 0, 0] && entries[v].next == null
      invariant forall v {:trigger entries[v]} :: i <= v < max ==> entries[v] == spare
      invariant forall v {:trigger entries[v]} :: 0 <= v < i ==> entries[v] != spare
    {
      entries[i] := new Entry();
    }
  }

  lemma {:induction false} WithoutAt(c: seq<nat>, w: nat, p: nat)
    requires p < |c| && c[p] == w && forall i, j :: 0 <= i < j < |c| ==> c[i] != c[j]
    ensures Without(c, w) == RemoveAt(c, p)
  {
    if c[0] != w {
      WithoutAt(c[1..], w, p - 1);
    }
  }
}
