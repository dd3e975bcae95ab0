/** The linked list of reordering blocks, relinked in place. */
module BlockList {
  import opened ReorderSpec
  import opened Sequences

  /** A block of the pool. Ghost field `home` names the list that owns it. */
  class Block {
    var next: Block?
    var frame: Frame
    ghost var home: int

    constructor ()
      ensures next == null
    {
      next, frame := null, Frame(0, 0, false, 0);
    }
  }

  ghost function Elems<T>(s: seq<T>): set<T> {
    set x | x in s
  }

  /** s with x put in at position p. */
  ghost function InsertAt<T>(s: seq<T>, p: nat, x: T): (r: seq<T>)
    requires p <= |s|
    ensures |r| == |s| + 1 && r[p] == x
    ensures forall i {:trigger r[i]} :: 0 <= i < p ==> r[i] == s[i]
    ensures forall i {:trigger r[i]} :: p < i < |r| ==> r[i] == s[i - 1]
  {
    s[..p] + [x] + s[p..]
  }

  lemma DistinctInsert<T>(s: seq<T>, p: nat, x: T)
    requires Distinct(s) && x !in Elems(s) && p <= |s|
    ensures Distinct(InsertAt(s, p, x)) && Elems(InsertAt(s, p, x)) == Elems(s) + {x}
  {
    var t := InsertAt(s, p, x);
    assert s == s[..p] + s[p..];
    forall i, j | 0 <= i < j < |t| ensures t[i] != t[j] {
      assert i != p ==> t[i] == s[if i < p then i else i - 1];
      assert j != p ==> t[j] == s[if j < p then j else j - 1];
    }
    forall y ensures y in t <==> y in s || y == x {}
  }

  lemma DistinctTail<T>(s: seq<T>)
    requires Distinct(s) && s != []
    ensures Distinct(s[1..]) && Elems(s[1..]) == Elems(s) - {s[0]}
  {
    assert s == [s[0]] + s[1..];
  }

  lemma {:induction false} DistinctSize<T>(s: seq<T>)
    requires Distinct(s)
    ensures |Elems(s)| == |s|
  {
    if s != [] {
      DistinctTail(s);
      DistinctSize(s[1..]);
      assert s[0] !in Elems(s[1..]);
    }
  }

  lemma Apart<T>(s: seq<T>, i: nat, j: nat)
    requires Distinct(s) && i < |s| && j < |s| && i != j
    ensures s[i] != s[j]
  {
  }

  class List {
    var next: Block?
    var qlen: nat
    ghost var nodes: seq<Block>
    ghost var frames: seq<Frame>
    ghost var footprint: set<Block>

    constructor ()
      ensures Valid() && frames == [] && footprint == {}
    {
      next, qlen, nodes, frames, footprint := null, 0, [], [], {};
    }

    /** The block at position i, null past the end. */
    ghost function At(i: nat): Block?
      reads this
    {
      if i < |nodes| then nodes[i] else null
    }

    /** The chain through next is nodes, and frames are what they carry. */
    ghost predicate Chained()
      reads this, footprint`next, footprint`frame
    {
      && next == At(0)
      && |nodes| == |frames|
      && (forall i {:trigger nodes[i]} :: 0 <= i < |nodes| ==> nodes[i] in footprint)
      && (forall i {:trigger nodes[i].next} :: 0 <= i < |nodes| ==> nodes[i].next == At(i + 1))
      && (forall i {:trigger frames[i]} :: 0 <= i < |nodes| ==> nodes[i].frame == frames[i])
    }

    ghost predicate Valid()
      reads this, footprint`next, footprint`frame
    {
      && qlen == |nodes|
      && Distinct(nodes)
      && footprint == Elems(nodes)
      && Chained()
    }

    /** As many blocks as frames. */
    lemma FootprintSize()
      requires Valid()
      ensures |footprint| == |frames|
    {
      DistinctSize(nodes);
    }

    lemma Head()
      requires Valid()
      ensures if frames == [] then next == null else next in footprint && next.frame == frames[0]
    {
    }

    /** Push at the front. */
    method Enqueue(b: Block)
      requires Valid() && b !in footprint
      modifies this, b`next
      ensures Valid() && footprint == old(footprint) + {b} && frames == [b.frame] + old(frames)
    {
      hide Distinct, Elems;
      qlen := qlen + 1;
      b.next := next;
      next := b;
      assert [b] + nodes == InsertAt(nodes, 0, b);
      DistinctInsert(nodes, 0, b);
      nodes := [b] + nodes;
      frames := [b.frame] + frames;
      footprint := footprint + {b};
      forall i {:trigger nodes[i].next} | 1 <= i < |nodes| ensures nodes[i].next == At(i + 1) {
        assert nodes[i] == old(nodes)[i - 1] && nodes[i].next == old(nodes[i - 1].next);
      }
    }

    /** Take the front block, or nothing. */
    method Dequeue() returns (b: Block?)
      requires Valid()
      modifies this, (if next == null then {} else {next})`next
      ensures Valid() && b == old(next)
      ensures old(frames) == [] ==> b == null && frames == [] && footprint == old(footprint)
      ensures old(frames) != [] ==> b != null && b in old(footprint) && b.next == null && b.frame == old(frames[0])
      ensures old(frames) != [] ==> footprint == old(footprint) - {b} && frames == old(frames)[1..]
    {
      hide Distinct, Elems;
      b := null;
      if qlen > 0 {
        qlen := qlen - 1;
        b := next;
        if b != null {
          DistinctTail(nodes);
          next := b.next;
          b.next := null;
          nodes := nodes[1..];
          frames := frames[1..];
          footprint := footprint - {b};
          forall i {:trigger nodes[i].next} | 0 <= i < |nodes| ensures nodes[i].next == At(i + 1) {
            Apart(old(nodes), i + 1, 0);
            assert nodes[i] == old(nodes)[i + 1] && nodes[i].next == old(nodes[i + 1].next);
          }
        }
      }
    }

    /** Link b in after prev, the block at position p - 1. */
    method LinkAfter(b: Block, prev: Block, ghost p: nat)
      requires Valid() && b !in footprint
      requires 0 < p <= |nodes| && prev == nodes[p - 1]
      modifies this, prev`next, b`next
      ensures Valid() && footprint == old(footprint) + {b}
      ensures frames == InsertAt(old(frames), p, b.frame)
    {
      ghost var was := nodes;
      DistinctInsert(was, p, b);
      hide Distinct, Elems, InsertAt;
      b.next := prev.next;
      prev.next := b;
      qlen := qlen + 1;
      nodes := InsertAt(was, p, b);
      frames := InsertAt(frames, p, b.frame);
      footprint := footprint + {b};
      forall i {:trigger frames[i]} | 0 <= i < |nodes| ensures nodes[i].frame == frames[i] && nodes[i] in footprint {
        if i < p {
          assert nodes[i] == was[i];
        } else if i > p {
          assert nodes[i] == was[i - 1];
        }
      }
      forall i {:trigger nodes[i].next} | 0 <= i < |nodes| ensures nodes[i].next == At(i + 1) {
        if i < p - 1 {
          Apart(was, i, p - 1);
          assert nodes[i] == was[i] && nodes[i].next == old(was[i].next);
        } else if i > p {
          Apart(was, i - 1, p - 1);
          assert nodes[i] == was[i - 1] && nodes[i].next == old(was[i - 1].next);
        }
      }
    }

    /** Link b in before the first block it does not follow, unless its number is already there. */
    method InsertSorted(b: Block) returns (ok: bool)
      requires Valid() && b !in footprint
      modifies this, footprint`next, b`next
      ensures Valid()
      ensures ok == !Duplicate(old(frames), b.frame.seqNo)
      ensures footprint == if ok then old(footprint) + {b} else old(footprint)
      ensures frames == if ok then Insert(old(frames), b.frame) else old(frames)
    {
      hide Distinct, Elems;
      var prev: Block? := null;
      var scan := next;
      ghost var p := 0;
      while scan != null && (SeqSmaller(scan.frame.seqNo, b.frame.seqNo) || scan.frame.seqNo == b.frame.seqNo)
        invariant 0 <= p <= |nodes|
        invariant scan == At(p)
        invariant prev == if p == 0 then null else nodes[p - 1]
        invariant Position(frames, b.frame.seqNo) == p + Position(frames[p..], b.frame.seqNo)
        decreases |nodes| - p
      {
        assert frames[p..][0] == frames[p] == scan.frame;
        if SeqSmaller(scan.frame.seqNo, b.frame.seqNo) {
          assert frames[p..][1..] == frames[p + 1..];
          prev, scan, p := scan, scan.next, p + 1;
        } else {
          return false;
        }
      }
      assert p < |nodes| ==> frames[p..][0] == frames[p] == scan.frame;
      if prev == null {
        Enqueue(b);
      } else {
        LinkAfter(b, prev, p);
      }
      return true;
    }
  }
}
