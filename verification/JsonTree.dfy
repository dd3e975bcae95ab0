/** cJSON items on the heap: children form a doubly linked list hanging from their parent, and the
    list edits relink them in place. */
module JsonTree {
  import opened Options
  import opened Sequences

  /** The value of an item and everything below it. */
  datatype Node = Node(kind: int, number: int, text: Option<string>, name: Option<string>, kids: seq<Node>)

  // ---------- lists of children as sequences ----------

  /** A count that C walks down while it is positive. */
  function Steps(which: int): nat {
    if which > 0 then which else 0
  }

  function ToLower(c: char): char {
    if 'A' <= c <= 'Z' then 'a' + (c - 'A') else c
  }

  /** Only the two cases of one letter are taken for the same. */
  lemma SameUpToCase(c: char, d: char)
    ensures ToLower(c) == ToLower(d) <==>
      c == d || ('A' <= c <= 'Z' && d as nat == c as nat + 32) || ('A' <= d <= 'Z' && c as nat == d as nat + 32)
  {
  }

  /** cJSON_strcasecmp answers zero. */
  predicate SameName(a: Option<string>, b: Option<string>) {
    if a.None? || b.None? then a == b
    else |a.value| == |b.value| && forall i | 0 <= i < |a.value| :: ToLower(a.value[i]) == ToLower(b.value[i])
  }

  /** The first child carrying the name; the number of children when none does. */
  function Named(ks: seq<Node>, name: Option<string>): (i: nat)
    ensures i <= |ks|
    ensures i < |ks| ==> SameName(ks[i].name, name)
    ensures forall j :: 0 <= j < i ==> !SameName(ks[j].name, name)
  {
    if ks == [] || SameName(ks[0].name, name) then 0 else 1 + Named(ks[1..], name)
  }

  class Item {
    var kind: int
    var number: int
    var text: Option<string>
    var name: Option<string>
    var next: Item?
    var prev: Item?
    var child: Item?
    ghost var kids: seq<Item>
    ghost var Repr: set<Item>

    /** cJSON_New_Item: all zero. */
    constructor ()
      ensures Valid() && Detached() && fresh(Repr) && Repr == {this}
      ensures Tree() == Node(0, 0, None, None, [])
    {
      kind, number, text, name := 0, 0, None, None;
      next, prev, child := null, null, null;
      kids, Repr := [], {this};
    }

    /** The children are linked both ways as the sequence ks. */
    ghost predicate Chained(ks: seq<Item>)
      reads this`child, ks`next, ks`prev
    {
      && child == (if ks == [] then null else ks[0])
      && (forall i {:trigger ks[i].next} :: 0 <= i < |ks| ==> ks[i].next == if i + 1 < |ks| then ks[i + 1] else null)
      && (forall i {:trigger ks[i].prev} :: 0 <= i < |ks| ==> ks[i].prev == if i > 0 then ks[i - 1] else null)
    }

    /** Each of ks owns its own part of the heap r, apart from this item and from each other. */
    ghost predicate Holds(ks: seq<Item>, r: set<Item>)
      reads ks`Repr
    {
      && this in r
      && (forall i {:trigger ks[i]} :: 0 <= i < |ks| ==> ks[i] in ks[i].Repr && ks[i].Repr <= r - {this})
      && (forall i, j :: 0 <= i < j < |ks| ==> ks[i].Repr !! ks[j].Repr)
    }

    ghost predicate Valid()
      reads this`child, this`kids, this`Repr
      reads Repr`child, Repr`kids, Repr`Repr, (Repr - {this})`next, (Repr - {this})`prev
      decreases Repr
    {
      && this in Repr
      && (forall k :: k in kids ==> k in Repr && k != this && k.Repr < Repr)
      && Holds(kids, Repr)
      && Chained(kids)
      && (forall k :: k in kids ==> k.Valid())
    }

    ghost predicate Detached()
      reads this`next, this`prev
    {
      next == null && prev == null
    }

    /** The trees of the children from the i-th on. */
    ghost function Trees(i: nat): (ts: seq<Node>)
      requires Valid() && i <= |kids|
      reads this`child, this`kids, this`Repr
      reads Repr`child, Repr`kids, Repr`Repr, (Repr - {this})`next, (Repr - {this})`prev
      reads (Repr - {this})`kind, (Repr - {this})`number, (Repr - {this})`text, (Repr - {this})`name
      ensures |ts| == |kids| - i
      ensures forall j {:trigger ts[j]} :: 0 <= j < |ts| ==> ts[j] == kids[i + j].Tree()
      decreases Repr, 0, |kids| - i
    {
      if i == |kids| then [] else [kids[i].Tree()] + Trees(i + 1)
    }

    ghost function Tree(): (t: Node)
      requires Valid()
      reads this`child, this`kids, this`Repr, this`kind, this`number, this`text, this`name
      reads Repr`child, Repr`kids, Repr`Repr, (Repr - {this})`next, (Repr - {this})`prev
      reads Repr`kind, Repr`number, Repr`text, Repr`name
      ensures t == Node(kind, number, text, name, t.kids)
      ensures |t.kids| == |kids| && forall j {:trigger t.kids[j]} :: 0 <= j < |kids| ==> t.kids[j] == kids[j].Tree()
      decreases Repr, 1
    {
      Node(kind, number, text, name, Trees(0))
    }

    /** What Valid says of the children. */
    lemma Parts()
      requires Valid()
      ensures Holds(kids, Repr) && Chained(kids) && Distinct(kids)
      ensures forall i {:trigger kids[i]} :: 0 <= i < |kids| ==> kids[i].Valid() && kids[i].Tree() == Tree().kids[i]
      ensures Tree() == Node(kind, number, text, name, Tree().kids) && |Tree().kids| == |kids|
    {
    }

    /** New children for this item: what has to be shown of them. */
    ghost method Adopt(ks: seq<Item>, r: set<Item>, ts: seq<Node>)
      requires Holds(ks, r) && Chained(ks) && |ts| == |ks|
      requires forall i {:trigger ks[i]} :: 0 <= i < |ks| ==> ks[i].Valid() && ks[i].Tree() == ts[i]
      modifies this`kids, this`Repr
      ensures kids == ks && Repr == r && Valid() && Tree() == Node(kind, number, text, name, ts)
      ensures forall i {:trigger ks[i]} :: 0 <= i < |ks| ==> ks[i].Valid() && ks[i].Tree() == ts[i]
    {
      kids, Repr := ks, r;
      forall k | k in kids ensures k in Repr && k != this && k.Repr < Repr && k.Valid() {
        var i :| 0 <= i < |kids| && kids[i] == k;
      }
      assert Valid();
      assert Tree().kids == ts;
    }

    /** A child's part of the heap holds no other child. */
    lemma Alone(ks: seq<Item>, r: set<Item>, i: nat)
      requires Holds(ks, r) && i < |ks|
      ensures this !in ks[i].Repr
      ensures forall o :: o in ks && o in ks[i].Repr ==> o == ks[i]
    {
    }

    lemma HoldsLess(ks: seq<Item>, r: set<Item>, i: nat)
      requires Holds(ks, r) && i < |ks|
      ensures Holds(RemoveAt(ks, i), r - ks[i].Repr)
      ensures ks[i] !in RemoveAt(ks, i)
    {
    }

    lemma HoldsOther(ks: seq<Item>, r: set<Item>, i: nat, item: Item)
      requires Holds(ks, r) && i < |ks| && item in item.Repr && item.Repr !! r
      ensures Holds(ks[i := item], r - ks[i].Repr + item.Repr) && item !in ks
    {
    }

    lemma HoldsMore(ks: seq<Item>, r: set<Item>, item: Item)
      requires Holds(ks, r) && item in item.Repr && item.Repr !! r
      ensures Holds(ks + [item], r + item.Repr) && item !in ks
    {
    }

    // ---------- walking the list ----------

    /** The child at a position of the walk; null past the end. */
    ghost function At(i: nat): Item?
      reads this`kids
    {
      if i < |kids| then kids[i] else null
    }

    lemma Begin()
      requires Valid()
      ensures child == At(0)
    {
    }

    /** A child's link leads to the next child. */
    lemma Onward(i: nat)
      requires Valid() && i < |kids|
      ensures kids[i].next == At(i + 1) && kids[i].Valid() && kids[i].Repr < Repr
      ensures kids[i].Tree() == Tree().kids[i]
    {
    }

    /** cJSON_GetArraySize. */
    method GetArraySize() returns (n: nat)
      requires Valid()
      ensures n == |Tree().kids|
    {
      var c := child;
      n := 0;
      while c != null
        invariant n <= |kids| && c == At(n)
        decreases |kids| - n
      {
        n := n + 1;
        c := c.next;
      }
    }

    /** cJSON_GetArrayItem; the walks of detach and replace begin like this too. */
    method GetArrayItem(which: int) returns (c: Item?)
      requires Valid()
      ensures c == At(Steps(which))
    {
      c := child;
      var left := which;
      ghost var i: nat := 0;
      while c != null && left > 0
        invariant i <= |kids| && c == At(i)
        invariant i + Steps(left) == Steps(which)
        decreases |kids| - i
      {
        c, left := c.next, left - 1;
        i := i + 1;
      }
    }

    /** The walk that counts past every child whose name differs. */
    method Find(wanted: Option<string>) returns (c: Item?, i: nat)
      requires Valid()
      ensures i == Named(Tree().kids, wanted) && c == At(i)
    {
      c, i := child, 0;
      while c != null && !SameName(c.name, wanted)
        invariant i <= |kids| && c == At(i)
        invariant forall j {:trigger Tree().kids[j]} :: 0 <= j < i ==> !SameName(Tree().kids[j].name, wanted)
        decreases |kids| - i
      {
        assert Tree().kids[i].name == c.name;
        c, i := c.next, i + 1;
      }
      assert c != null ==> Tree().kids[i].name == c.name;
      NamedIs(Tree().kids, wanted, i);
    }

    /** cJSON_GetObjectItem. */
    method GetObjectItem(wanted: Option<string>) returns (c: Item?)
      requires Valid()
      ensures c == At(Named(Tree().kids, wanted))
    {
      var i;
      c, i := Find(wanted);
    }

    // ---------- edits ----------

    /** The walk to the last child. */
    method Last() returns (c: Item?)
      requires Valid()
      ensures c == if kids == [] then null else kids[|kids| - 1]
    {
      c := child;
      ghost var i: nat := 0;
      while c != null && c.next != null
        invariant kids == [] ==> c == null
        invariant kids != [] ==> i < |kids| && c == kids[i]
        decreases |kids| - i
      {
        c := c.next;
        i := i + 1;
      }
    }

    /** suffix_object after the last child, or the first child set. */
    method Link(last: Item?, item: Item)
      requires Chained(kids) && Distinct(kids) && item !in kids && item.Detached()
      requires last == if kids == [] then null else kids[|kids| - 1]
      modifies this`child, kids`next, item`prev
      ensures Chained(kids + [item])
    {
      if last == null {
        child := item;
      } else {
        last.next := item;
        item.prev := last;
      }
    }

    method Hang(last: Item?, item: Item)
      requires Valid() && item.Valid() && item.Detached() && item.Repr !! Repr
      requires last == if kids == [] then null else kids[|kids| - 1]
      modifies this`child, this`kids, this`Repr, kids`next, item`prev
      ensures Valid() && kids == old(kids) + [item] && Repr == old(Repr) + item.Repr
      ensures item.Valid() && item.Repr == old(item.Repr) && item.Tree() == old(item.Tree())
      ensures Tree() == old(Tree()).(kids := old(Tree()).kids + [item.Tree()])
    {
      hide Valid, Tree, Chained, Holds, Distinct;
      Parts();
      ItselfIn(item);
      HoldsMore(kids, Repr, item);
      Link(last, item);
      forall i | 0 <= i < |kids| ensures kids[i].Valid() && kids[i].Tree() == old(Tree()).kids[i] {
        Alone(kids, Repr, i);
      }
      ghost var ks := kids + [item];
      assert ks[|kids|] == item;
      Adopt(ks, Repr + item.Repr, old(Tree()).kids + [item.Tree()]);
    }

    /** cJSON_AddItemToArray. */
    method AddItemToArray(item: Item)
      requires Valid() && item.Valid() && item.Detached() && item.Repr !! Repr
      modifies this`child, this`kids, this`Repr, kids`next, item`prev
      ensures Valid() && kids == old(kids) + [item] && Repr == old(Repr) + item.Repr
      ensures item.Valid() && item.Tree() == old(item.Tree())
      ensures Tree() == old(Tree()).(kids := old(Tree()).kids + [item.Tree()])
    {
      hide Valid, Tree;
      var last := Last();
      Hang(last, item);
    }

    /** cJSON_AddItemToObject. */
    method AddItemToObject(wanted: string, item: Item)
      requires Valid() && item.Valid() && item.Detached() && item.Repr !! Repr
      modifies this`child, this`kids, this`Repr, kids`next, item`prev, item`name
      ensures Valid() && kids == old(kids) + [item] && Repr == old(Repr) + item.Repr
      ensures item.Valid() && item.Tree() == old(item.Tree()).(name := Some(wanted))
      ensures Tree() == old(Tree()).(kids := old(Tree()).kids + [item.Tree()])
    {
      hide Holds, Distinct, Chained;
      ItselfIn(this);
      ItselfIn(item);
      item.name := Some(wanted);
      assert item.Valid() && item.Tree() == old(item.Tree()).(name := Some(wanted)) && Tree() == old(Tree());
      AddItemToArray(item);
    }

    /** The pointer work of cJSON_DetachItemFromArray. */
    method Unlink(c: Item, ghost i: nat)
      requires Chained(kids) && Distinct(kids) && i < |kids| && c == kids[i]
      modifies this`child, kids`next, kids`prev
      ensures Chained(RemoveAt(kids, i)) && c.Detached()
    {
      ghost var ks := RemoveAt(kids, i);
      assert c.next == (if i + 1 < |kids| then kids[i + 1] else null) && c.prev == (if i > 0 then kids[i - 1] else null);
      if c.prev != null { c.prev.next := c.next; }
      if c.next != null { c.next.prev := c.prev; }
      if c == child { child := c.next; }
      c.prev, c.next := null, null;
      forall j {:trigger ks[j].next} | 0 <= j < |ks| ensures ks[j].next == if j + 1 < |ks| then ks[j + 1] else null {
        assert ks[j] == kids[if j < i then j else j + 1];
      }
      forall j {:trigger ks[j].prev} | 0 <= j < |ks| ensures ks[j].prev == if j > 0 then ks[j - 1] else null {
        assert ks[j] == kids[if j < i then j else j + 1];
      }
    }

    /** The n-th child taken out. */
    method Remove(c: Item, ghost n: nat)
      requires Valid() && n < |kids| && c == kids[n]
      modifies this`child, this`kids, this`Repr, kids`next, kids`prev
      ensures Valid() && kids == RemoveAt(old(kids), n) && Repr == old(Repr) - c.Repr
      ensures Tree() == old(Tree()).(kids := RemoveAt(old(Tree()).kids, n))
      ensures c.Valid() && c.Detached() && c.Tree() == old(Tree()).kids[n] && c.Repr == old(c.Repr)
    {
      hide Valid, Tree, Chained, Holds, Distinct;
      Parts();
      HoldsLess(kids, Repr, n);
      Alone(kids, Repr, n);
      Unlink(c, n);
      forall i | 0 <= i < |kids| ensures kids[i].Valid() && kids[i].Tree() == old(Tree()).kids[i] {
        Alone(kids, Repr, i);
      }
      RemovedPairs(kids, old(Tree()).kids, n);
      Adopt(RemoveAt(kids, n), Repr - c.Repr, RemoveAt(old(Tree()).kids, n));
    }

    /** cJSON_DetachItemFromArray. */
    method DetachItemFromArray(which: int) returns (c: Item?)
      requires Valid()
      modifies this`child, this`kids, this`Repr, kids`next, kids`prev
      ensures Valid() && c == old(At(Steps(which)))
      ensures c == null ==> kids == old(kids) && Repr == old(Repr) && Tree() == old(Tree())
      ensures c != null ==> Steps(which) < |old(Tree()).kids| && kids == RemoveAt(old(kids), Steps(which))
      ensures c != null ==> Tree() == old(Tree()).(kids := RemoveAt(old(Tree()).kids, Steps(which)))
      ensures c != null ==> c.Valid() && c.Detached() && c.Tree() == old(Tree()).kids[Steps(which)]
      ensures c != null ==> c.Repr == old(c.Repr) && Repr == old(Repr) - c.Repr
    {
      hide Valid, Chained, Holds, Distinct;
      c := GetArrayItem(which);
      if c != null {
        Remove(c, Steps(which));
      }
    }

    /** cJSON_DetachItemFromObject. */
    method DetachItemFromObject(wanted: Option<string>) returns (c: Item?)
      requires Valid()
      modifies this`child, this`kids, this`Repr, kids`next, kids`prev
      ensures Valid() && c == old(At(Named(Tree().kids, wanted)))
      ensures c == null ==> kids == old(kids) && Repr == old(Repr) && Tree() == old(Tree())
      ensures c != null ==> Named(old(Tree()).kids, wanted) < |old(kids)|
      ensures c != null ==> kids == RemoveAt(old(kids), Named(old(Tree()).kids, wanted))
      ensures c != null ==> Tree() == old(Tree()).(kids := RemoveAt(old(Tree()).kids, Named(old(Tree()).kids, wanted)))
      ensures c != null ==> c.Valid() && c.Detached() && c.Tree() == old(Tree()).kids[Named(old(Tree()).kids, wanted)]
      ensures c != null ==> c.Repr == old(c.Repr) && Repr == old(Repr) - c.Repr
    {
      hide Valid, Chained, Holds, Distinct;
      var i;
      c, i := Find(wanted);
      if c != null {
        c := DetachItemFromArray(i);
      }
    }

    /** The pointer work of cJSON_ReplaceItemInArray. */
    method Exchange(c: Item, item: Item, ghost i: nat)
      requires Chained(kids) && Distinct(kids) && i < |kids| && c == kids[i] && item !in kids
      modifies this`child, kids`next, kids`prev, item`next, item`prev
      ensures Chained(kids[i := item])
    {
      assert c.next == (if i + 1 < |kids| then kids[i + 1] else null) && c.prev == (if i > 0 then kids[i - 1] else null);
      item.next, item.prev := c.next, c.prev;
      if item.next != null { item.next.prev := item; }
      if c == child { child := item; } else { item.prev.next := item; }
      c.next, c.prev := null, null;
    }

    method Displace(c: Item, item: Item, ghost n: nat)
      requires Valid() && item.Valid() && item.Repr !! Repr && n < |kids| && c == kids[n]
      modifies this`child, this`kids, this`Repr, kids`next, kids`prev, item`next, item`prev
      ensures Valid() && item.Valid() && item.Tree() == old(item.Tree())
      ensures kids == old(kids)[n := item] && Repr == old(Repr) - old(c.Repr) + item.Repr
      ensures Tree() == old(Tree()).(kids := old(Tree()).kids[n := item.Tree()])
    {
      hide Valid, Tree, Chained, Holds, Distinct;
      Parts();
      ItselfIn(item);
      HoldsOther(kids, Repr, n, item);
      Exchange(c, item, n);
      forall i | 0 <= i < |kids| ensures kids[i].Valid() && kids[i].Tree() == old(Tree()).kids[i] {
        Alone(kids, Repr, i);
      }
      ghost var ks := kids[n := item];
      assert ks[n] == item;
      Adopt(ks, Repr - c.Repr + item.Repr, old(Tree()).kids[n := item.Tree()]);
    }

    /** cJSON_ReplaceItemInArray; the item it replaces is freed. */
    method ReplaceItemInArray(which: int, item: Item)
      requires Valid() && item.Valid() && item.Repr !! Repr
      modifies this`child, this`kids, this`Repr, kids`next, kids`prev, item`next, item`prev
      ensures Valid() && item.Valid() && item.Tree() == old(item.Tree())
      ensures Steps(which) >= |old(kids)| ==> kids == old(kids) && Repr == old(Repr) && Tree() == old(Tree())
      ensures Steps(which) < |old(kids)| ==> kids == old(kids)[Steps(which) := item]
      ensures Steps(which) < |old(kids)| ==> Repr == old(Repr) - old(kids[Steps(which)].Repr) + item.Repr
      ensures Steps(which) < |old(kids)| ==> Tree() == old(Tree()).(kids := old(Tree()).kids[Steps(which) := item.Tree()])
    {
      hide Valid, Chained, Holds, Distinct;
      var c := GetArrayItem(which);
      if c != null {
        Displace(c, item, Steps(which));
      }
    }

    /** cJSON_ReplaceItemInObject. */
    method ReplaceItemInObject(wanted: string, item: Item)
      requires Valid() && item.Valid() && item.Repr !! Repr
      modifies this`child, this`kids, this`Repr, kids`next, kids`prev, item`next, item`prev, item`name
      ensures Valid() && item.Valid()
      ensures Named(old(Tree()).kids, Some(wanted)) == |old(kids)| ==> Tree() == old(Tree()) && item.Tree() == old(item.Tree())
      ensures Named(old(Tree()).kids, Some(wanted)) < |old(kids)| ==> item.Tree() == old(item.Tree()).(name := Some(wanted))
      ensures Named(old(Tree()).kids, Some(wanted)) < |old(kids)| ==>
        Tree() == old(Tree()).(kids := old(Tree()).kids[Named(old(Tree()).kids, Some(wanted)) := item.Tree()])
    {
      hide Holds, Distinct, Chained;
      var c, i := Find(Some(wanted));
      if c != null {
        ItselfIn(this);
        ItselfIn(item);
        item.name := Some(wanted);
        assert item.Valid() && item.Tree() == old(item.Tree()).(name := Some(wanted)) && Tree() == old(Tree());
        ReplaceItemInArray(i, item);
      }
    }

    // ---------- copies ----------

    lemma KidsWithin()
      requires Valid()
      ensures forall k :: k in kids ==> k in Repr && k != this
    {
    }

    /** A new item with this item's own values and no children. */
    method CopyFields() returns (copy: Item)
      requires Valid()
      ensures copy.Valid() && copy.Detached() && fresh(copy) && fresh(copy.Repr) && copy.kids == []
      ensures copy.Tree() == Tree().(kids := [])
    {
      copy := new Item();
      copy.kind, copy.number, copy.text, copy.name := kind, number, text, name;
      assert copy.Tree().kids == [];
    }

    /** Hang, for an item that is wholly new. */
    method Extend(last: Item?, item: Item)
      requires Valid() && item.Valid() && item.Detached() && item.Repr !! Repr
      requires last == if kids == [] then null else kids[|kids| - 1]
      modifies Repr, item
      ensures Valid() && kids == old(kids) + [item] && Repr == old(Repr) + item.Repr
      ensures next == old(next) && prev == old(prev) && item.Repr == old(item.Repr)
      ensures Tree() == old(Tree()).(kids := old(Tree()).kids + [old(item.Tree())])
    {
      hide Valid, Tree, Chained, Holds, Distinct;
      KidsWithin();
      ItselfIn(this);
      Hang(last, item);
    }

    /** One turn of the loop of cJSON_Duplicate: the i-th child's copy hung behind the last one. */
    method CopyChild(copy: Item, last: Item?, c: Item, ghost i: nat) returns (made: Item)
      requires Valid() && i < |kids| && c == kids[i]
      requires copy.Valid() && copy.Detached() && copy.Repr !! Repr && |copy.kids| == i
      requires last == if i == 0 then null else copy.kids[i - 1]
      requires copy.Tree() == Tree().(kids := Tree().kids[..i])
      modifies copy.Repr
      ensures Valid() && Tree() == old(Tree()) && unchanged(this, Repr)
      ensures copy.Valid() && copy.Detached() && fresh(copy.Repr - old(copy.Repr))
      ensures copy.kids == old(copy.kids) + [made]
      ensures copy.Tree() == Tree().(kids := Tree().kids[..i + 1])
      decreases Repr, 0
    {
      hide Valid, Tree, Chained, Holds, Distinct;
      Onward(i);
      TakeMore(Tree().kids, i);
      made := c.Duplicate(true);
      ItselfIn(this);
      copy.Extend(last, made);
    }

    /** cJSON_Duplicate, of items that are not references. */
    method Duplicate(recurse: bool) returns (copy: Item)
      requires Valid()
      ensures copy.Valid() && copy.Detached() && fresh(copy) && fresh(copy.Repr)
      ensures copy.Tree() == if recurse then Tree() else Tree().(kids := [])
      decreases Repr, 1
    {
      hide Valid, Tree, Chained, Holds, Distinct;
      copy := CopyFields();
      if !recurse {
        return;
      }
      Parts();
      var c, last: Item? := child, null;
      ghost var i: nat := 0;
      Begin();
      while c != null
        invariant i <= |kids| && c == At(i) && Valid() && unchanged(this, Repr) && Tree() == old(Tree())
        invariant copy.Valid() && copy.Detached() && fresh(copy.Repr) && |copy.kids| == i
        invariant last == if i == 0 then null else copy.kids[i - 1]
        invariant copy.Tree() == Tree().(kids := Tree().kids[..i])
        decreases |kids| - i
      {
        last := CopyChild(copy, last, c, i);
        Onward(i);
        c := c.next;
        i := i + 1;
      }
    }
  }

  /** Removing at one place keeps two sequences in step. */
  lemma RemovedPairs<S, T>(s: seq<S>, t: seq<T>, n: nat)
    requires |s| == |t| && n < |s|
    ensures var s1, t1 := RemoveAt(s, n), RemoveAt(t, n);
      |s1| == |t1| && forall i {:trigger s1[i]} :: 0 <= i < |s1| ==> var j := if i < n then i else i + 1; s1[i] == s[j] && t1[i] == t[j]
  {
  }

  lemma TakeMore<T>(s: seq<T>, i: nat)
    requires i < |s|
    ensures s[..i] + [s[i]] == s[..i + 1]
  {
  }

  lemma ItselfIn(item: Item)
    requires item.Valid()
    ensures item in item.Repr
  {
  }

  // ---------- edits and lookups together ----------

  /** After a replacement by name, the name leads to the new item. */
  lemma ReplacedIsFound(ks: seq<Node>, wanted: string, t: Node)
    requires Named(ks, Some(wanted)) < |ks| && t.name == Some(wanted)
    ensures Named(ks[Named(ks, Some(wanted)) := t], Some(wanted)) == Named(ks, Some(wanted))
  {
    NamedIs(ks[Named(ks, Some(wanted)) := t], Some(wanted), Named(ks, Some(wanted)));
  }

  /** An item added under a name is found by it exactly when no earlier child carries the name. */
  lemma AddedIsFoundUnlessShadowed(ks: seq<Node>, wanted: string, t: Node)
    requires t.name == Some(wanted)
    ensures Named(ks + [t], Some(wanted)) == Named(ks, Some(wanted))
    ensures Named(ks + [t], Some(wanted)) == |ks| <==> forall k :: k in ks ==> !SameName(k.name, Some(wanted))
  {
    NamedIs(ks + [t], Some(wanted), Named(ks, Some(wanted)));
  }

  /** Detaching by name removes one carrier of the name only: nothing is left under it exactly when
      no later child carries it too. */
  lemma DetachedIsGoneUnlessRepeated(ks: seq<Node>, wanted: Option<string>)
    requires Named(ks, wanted) < |ks|
    ensures var i := Named(ks, wanted);
      Named(RemoveAt(ks, i), wanted) == |ks| - 1 <==> forall j :: i < j < |ks| ==> !SameName(ks[j].name, wanted)
  {
    var i := Named(ks, wanted);
    var rest := RemoveAt(ks, i);
    forall j | 0 <= j < |rest| ensures rest[j] == ks[if j < i then j else j + 1] {}
    forall j | i < j < |ks| ensures ks[j] == rest[j - 1] {}
    if forall j :: i < j < |ks| ==> !SameName(ks[j].name, wanted) {
      forall j | 0 <= j < |rest| ensures !SameName(rest[j].name, wanted) {
        assert rest[j] == ks[if j < i then j else j + 1];
      }
      NamedIs(rest, wanted, |rest|);
    }
  }

  lemma {:induction false} NamedIs(ks: seq<Node>, name: Option<string>, i: nat)
    requires i <= |ks| && (i < |ks| ==> SameName(ks[i].name, name))
    requires forall j :: 0 <= j < i ==> !SameName(ks[j].name, name)
    ensures Named(ks, name) == i
  {
    if ks != [] && i > 0 {
      assert !SameName(ks[0].name, name);
      NamedIs(ks[1..], name, i - 1);
    }
  }
}
