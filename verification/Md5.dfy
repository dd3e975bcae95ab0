/** The streaming digest: a context that takes a message in chunks. */
module Md5 {
  import opened Bytes
  import opened Md5Spec
  import Md5Block

  // ---------- the two-word bit counter ----------

  /** The counter after len bytes: 8 * len modulo 2^64, in two words. */
  predicate Counts(low: nat, high: nat, len: nat) {
    low < TWO32 && high < TWO32 && low == 8 * len % TWO32 && high == 8 * len / TWO32 % TWO32
  }

  lemma CountedPosition(low: nat, len: nat)
    requires low == 8 * len % TWO32
    ensures low / 8 % 64 == len % 64
  {
    var q := 8 * len / TWO32;
    assert 8 * len == q * TWO32 + low;
    assert low / 8 == len - q * 0x2000_0000;
    assert len == low / 8 + 64 * (q * 0x80_0000);
    ModMore(low / 8, q * 0x80_0000);
  }

  lemma ModMore(a: nat, k: nat)
    ensures (a + 64 * k) % 64 == a % 64
  {
  }

  /** The carry and the two shifted parts of the chunk length keep the counter exact. */
  lemma CountMore(low: nat, high: nat, len: nat, more: nat)
    requires Counts(low, high, len) && more < TWO32
    ensures var add := 8 * more % TWO32;
      var low1 := (low + add) % TWO32;
      var high1 := if low1 < add then (high + 1) % TWO32 else high;
      Counts(low1, (high1 + more / 0x2000_0000) % TWO32, len + more)
  {
    var q, q2 := 8 * len / TWO32, 8 * more / TWO32;
    var add := 8 * more % TWO32;
    assert 8 * more == q2 * TWO32 + add;
    assert q2 == more / 0x2000_0000;
    var carry := if low + add >= TWO32 then 1 else 0;
    var low1 := (low + add) % TWO32;
    assert low1 == low + add - carry * TWO32;
    assert 8 * (len + more) == (q + q2 + carry) * TWO32 + low1;
    DivIs(8 * (len + more), q + q2 + carry, low1);
    var high1 := if low1 < add then (high + 1) % TWO32 else high;
    assert high1 == (high + carry) % TWO32;
    AddMod(q, carry);
    AddMod(q + carry, q2);
  }

  lemma DivIs(n: nat, q: nat, r: nat)
    requires n == q * TWO32 + r && r < TWO32
    ensures n / TWO32 == q && n % TWO32 == r
  {
  }

  lemma AddMod(a: nat, b: nat)
    ensures (a % TWO32 + b) % TWO32 == (a + b) % TWO32
  {
  }

  // ---------- the block loop of MD5Update ----------

  /** The last position of the block loop, from the first whole block of the chunk on. */
  function LastBlock(first: nat, len: nat): (i: nat)
    requires first <= len
    ensures first <= i <= len < i + 64 && i % 64 == first % 64
  {
    LastIsBlock(first, len);
    len - (len - first) % 64
  }

  lemma LastIsBlock(first: nat, len: nat)
    requires first <= len
    ensures (len - (len - first) % 64) % 64 == first % 64
  {
    var q := (len - first) / 64;
    assert len - (len - first) % 64 == first + 64 * q;
    ModMore(first, q);
  }

  /** A chunk of len bytes on index waiting ones is short enough for the 32-bit loop variable. */
  predicate Fits(index: nat, len: nat)
    requires index < 64
  {
    len < TWO32 && (len >= 64 - index ==> LastBlock(64 - index, len) + 64 < TWO32)
  }

  /** The loop guard i + 64 <= inputlen is computed modulo 2^32. It stops where it should exactly
      when the chunk fits; otherwise it is true once more after the last whole block. */
  lemma GuardIsExactIffChunkFits(index: nat, len: nat)
    requires index < 64 && 64 - index <= len < TWO32
    ensures Fits(index, len) <==> forall i {:trigger LastBlock(i, len)} ::
      64 - index <= i <= len && LastBlock(i, len) == LastBlock(64 - index, len) ==> ((i + 64) % TWO32 <= len <==> i + 64 <= len)
  {
    var last := LastBlock(64 - index, len);
    if !Fits(index, len) {
      assert LastBlock(last, len) == last;
      assert (last + 64) % TWO32 == last + 64 - TWO32;
    }
  }

  /** Where the 32-bit loop variable stands after a number of turns that nothing has ended. */
  function Position(first: nat, turns: nat): (i: nat)
    ensures i < TWO32
  {
    (first + 64 * turns) % TWO32
  }

  predicate Guard(i: nat, len: nat) {
    (i + 64) % TWO32 <= len
  }

  /** Some turn finds the guard false. */
  ghost predicate Ends(first: nat, len: nat) {
    exists turns: nat :: !Guard(Position(first, turns), len)
  }

  /** The block loop comes to an end exactly when the chunk fits; otherwise the loop variable goes
      round and round, and the guard holds at every turn. */
  lemma LoopEndsIffChunkFits(index: nat, len: nat)
    requires index < 64 && 64 - index <= len < TWO32
    ensures Fits(index, len) <==> Ends(64 - index, len)
  {
    var first := 64 - index;
    var last := LastBlock(first, len);
    if Fits(index, len) {
      var turns := TurnsTo(first, last);
      assert !Guard(Position(first, turns), len);
    } else {
      forall turns: nat ensures Guard(Position(first, turns), len) {
        PositionStays(first, turns);
        NextStays(Position(first, turns), first);
        TopOfCircle(first, last);
      }
    }
  }

  lemma TurnsTo(first: nat, last: nat) returns (turns: nat)
    requires first <= last < TWO32 && last % 64 == first % 64
    ensures Position(first, turns) == last
  {
    turns := last / 64 - first / 64;
    assert first + 64 * turns == last;
  }

  lemma PositionStays(first: nat, turns: nat)
    ensures Position(first, turns) % 64 == first % 64
  {
    WrapKeeps64(first + 64 * turns);
    ModMore(first, turns);
  }

  lemma NextStays(i: nat, first: nat)
    requires i < TWO32 && i % 64 == first % 64
    ensures (i + 64) % TWO32 % 64 == first % 64
  {
    WrapKeeps64(i + 64);
    ModMore(i, 1);
  }

  lemma WrapKeeps64(n: nat)
    ensures n % TWO32 % 64 == n % 64
  {
    var q := n / TWO32;
    assert n == n % TWO32 + 64 * (0x400_0000 * q);
    ModMore(n % TWO32, 0x400_0000 * q);
  }

  /** A position within 64 of 2^32 is the highest of its remainder. */
  lemma TopOfCircle(first: nat, last: nat)
    requires last % 64 == first % 64 && last + 64 >= TWO32
    ensures forall i {:trigger i % 64} :: 0 <= i < TWO32 && i % 64 == first % 64 ==> i <= last
  {
    forall i {:trigger i % 64} | 0 <= i < TWO32 && i % 64 == first % 64 ensures i <= last {
      assert i == 64 * (i / 64) + i % 64 && last == 64 * (last / 64) + last % 64;
    }
  }

  /** A chunk of 2^32 - 1 bytes on an empty buffer: after the block at 0xFFFFFFC0 comes the one at 0. */
  lemma LongestChunkNeverEnds()
    ensures !Fits(0, 0xFFFF_FFFF)
    ensures Position(64, 0x3FF_FFFE) == 0xFFFF_FFC0 && Guard(0xFFFF_FFC0, 0xFFFF_FFFF) && Position(64, 0x3FF_FFFF) == 0
    ensures !Ends(64, 0xFFFF_FFFF)
  {
    var last := LastBlock(64, 0xFFFF_FFFF);
    assert last == 0xFFFF_FFC0;
    LoopEndsIffChunkFits(0, 0xFFFF_FFFF);
  }

  /** Every chunk shorter than 2^32 - 64 bytes fits. */
  lemma ShortFits(index: nat, len: nat)
    requires index < 64 && len < TWO32 - 64
    ensures Fits(index, len)
  {
  }

  // ---------- folding blocks ----------

  lemma {:induction false} FoldOneMore(st: State, m: seq<Byte>, block: seq<Byte>)
    requires |m| % 64 == 0 && |block| == 64
    ensures Fold(st, m + block) == Compress(Fold(st, m), block)
    decreases |m|
  {
    hide Compress;
    if m == [] {
      assert m + block == block && block[..64] == block;
    } else {
      assert (m + block)[..64] == m[..64] && (m + block)[64..] == m[64..] + block;
      FoldOneMore(Compress(st, m[..64]), m[64..], block);
    }
  }

  function Whole(len: nat): (n: nat)
    ensures n <= len < n + 64 && n % 64 == 0
  {
    len - len % 64
  }

  // ---------- the end of a message ----------

  const PADDING: seq<Byte> := [0x80] + Zeros(63)

  lemma PaddingIs(m: seq<Byte>, n: nat)
    requires n == PadLength(|m|)
    ensures n <= |PADDING| && m + PADDING[..n] + LengthBytes(|m|) == Padded(m)
  {
    hide LengthBytes;
    assert PADDING[..n] == [0x80] + Zeros(n - 1);
    assert m + PADDING[..n] == m + [0x80] + Zeros(n - 1);
  }

  /** MD5Encode, of the counter. */
  method EncodeCounts(low: nat, high: nat) returns (output: array<Byte>)
    ensures fresh(output) && output[..] == NumberBytes(low) + NumberBytes(high)
  {
    output := new Byte[8];
    var i, j := 0, 0;
    while j < 8
      invariant j == 4 * i && i <= 2
      invariant output[..j] == if i == 0 then [] else if i == 1 then NumberBytes(low) else NumberBytes(low) + NumberBytes(high)
    {
      var word := if i == 0 then low else high;
      output[j], output[j + 1], output[j + 2], output[j + 3] := NumberByte(word, 0), NumberByte(word, 1), NumberByte(word, 2), NumberByte(word, 3);
      assert output[..j + 4] == output[..j] + NumberBytes(word);
      i, j := i + 1, j + 4;
    }
  }

  lemma LengthIsCounted(low: nat, high: nat, len: nat)
    requires Counts(low, high, len)
    ensures NumberBytes(low) + NumberBytes(high) == LengthBytes(len)
  {
    hide NumberBytes;
    var n := 8 * len;
    var q, r := n / (TWO32 * TWO32), n % (TWO32 * TWO32);
    assert n == q * (TWO32 * TWO32) + r;
    DivIs(n, q * TWO32 + r / TWO32, r % TWO32);
    ModTwice(q, r / TWO32);
  }

  lemma ModTwice(q: nat, h: nat)
    requires h < TWO32
    ensures (q * TWO32 + h) % TWO32 == h
  {
  }

  lemma FlatMore(ws: seq<Word>, w: Word)
    ensures Md5Block.Flat(ws + [w]) == Md5Block.Flat(ws) + WordBytes(w)
  {
    hide WordBytes;
    assert (ws + [w])[..|ws|] == ws;
  }

  lemma FourWords(st: State)
    ensures Md5Block.Flat([st.a, st.b, st.c, st.d]) == Output(st)
  {
    hide WordBytes;
    FlatMore([], st.a);
    FlatMore([st.a], st.b);
    FlatMore([st.a, st.b], st.c);
    FlatMore([st.a, st.b, st.c], st.d);
    assert [] + [st.a] == [st.a] && [st.a] + [st.b] == [st.a, st.b];
    assert [st.a, st.b] + [st.c] == [st.a, st.b, st.c] && [st.a, st.b, st.c] + [st.d] == [st.a, st.b, st.c, st.d];
    assert Md5Block.Flat([]) + WordBytes(st.a) == WordBytes(st.a);
  }

  class Context {
    var low: nat
    var high: nat
    var state: State
    var buffer: array<Byte>
    /** The bytes taken so far. */
    ghost var fed: seq<Byte>

    /** The counter counts the bytes, the state has digested the whole blocks, and the buffer
        begins with what is left over. */
    ghost predicate Valid()
      reads this, buffer
    {
      && buffer.Length == 64
      && Counts(low, high, |fed|)
      && state == Fold(INIT, fed[..Whole(|fed|)])
      && buffer[..|fed| % 64] == fed[Whole(|fed|)..]
    }

    /** MD5Init. */
    constructor ()
      ensures Valid() && fed == [] && fresh(buffer)
    {
      low, high, state := 0, 0, INIT;
      buffer := new Byte[64];
      fed := [];
    }

    /** memcpy into the buffer. */
    method Copy(index: nat, bytes: seq<Byte>)
      requires index + |bytes| <= buffer.Length
      modifies buffer
      ensures buffer[..index + |bytes|] == old(buffer[..index]) + bytes
    {
      var k := 0;
      while k < |bytes|
        invariant k <= |bytes| && buffer[..index + k] == old(buffer[..index]) + bytes[..k]
      {
        buffer[index + k] := bytes[k];
        k := k + 1;
        assert buffer[..index + k] == buffer[..index + k - 1] + [bytes[k - 1]];
      }
    }

    method Count(inputlen: nat)
      requires Counts(low, high, |fed|) && inputlen < TWO32
      modifies this`low, this`high
      ensures Counts(low, high, |fed| + inputlen)
    {
      CountMore(low, high, |fed|, inputlen);
      low := (low + inputlen * 8 % TWO32) % TWO32;
      if low < inputlen * 8 % TWO32 {
        high := (high + 1) % TWO32;
      }
      high := (high + inputlen / 0x2000_0000) % TWO32;
    }

    /** The block loop of MD5Update: the whole blocks of the chunk from first on. */
    method Blocks(input: seq<Byte>, index: nat, ghost m: seq<Byte>) returns (i: nat)
      requires index < 64 && 64 - index <= |input| && Fits(index, |input|)
      requires |m| % 64 == 0 && state == Fold(INIT, m)
      modifies this`state
      ensures i == LastBlock(64 - index, |input|) && state == Fold(INIT, m + input[64 - index..i])
    {
      hide Fold, Compress, LastBlock;
      ghost var first := 64 - index;
      i := 64 - index;
      assert m + input[first..i] == m;
      while (i + 64) % TWO32 <= |input|
        invariant first <= i <= |input| && LastBlock(i, |input|) == LastBlock(first, |input|)
        invariant (i - first) % 64 == 0
        invariant state == Fold(INIT, m + input[first..i])
        decreases |input| - i
      {
        OneFurther(first, i, |input|);
        BlockAppended(m, input, first, i);
        state := Md5Block.Transform(state, input[i..i + 64]);
        i := (i + 64) % TWO32;
      }
    }

    /** The waiting bytes and the start of the chunk make a block. */
    method FillBlock(input: seq<Byte>, index: nat)
      requires buffer.Length == 64 && index == |fed| % 64 && |input| >= 64 - index
      requires buffer[..index] == fed[Whole(|fed|)..] && state == Fold(INIT, fed[..Whole(|fed|)])
      modifies this`state, buffer
      ensures state == Fold(INIT, fed + input[..64 - index])
    {
      hide Fold, Compress;
      Copy(index, input[..64 - index]);
      FoldOneMore(INIT, fed[..Whole(|fed|)], buffer[..]);
      state := Md5Block.Transform(state, buffer[..]);
      assert fed[..Whole(|fed|)] + buffer[..] == fed + input[..64 - index];
    }

    /** MD5Update. */
    method Update(input: seq<Byte>)
      requires Valid() && Fits(|fed| % 64, |input|)
      modifies this, buffer
      ensures Valid() && buffer == old(buffer) && fed == old(fed) + input
    {
      hide Fold, Compress, Counts, Fits;
      CountedAt();
      var index := low / 8 % 64;
      var partlen := 64 - index;
      FitsIsShort(index, |input|);
      Count(|input|);
      var i := 0;
      WholeMoves(fed, input, index);
      if |input| >= partlen {
        FillBlock(input, index);
        i := Blocks(input, index, fed + input[..partlen]);
        index := 0;
      }
      Copy(index, input[i..]);
      fed := fed + input;
    }

    /** MD5Final: the digest of everything taken so far. */
    method Final() returns (digest: array<Byte>)
      requires Valid()
      modifies this, buffer
      ensures fresh(digest) && digest[..] == Digest(old(fed))
    {
      hide Fold, Counts, Fits, Md5Block.Flat, WordBytes, Padded, LengthBytes, NumberBytes, Output, PADDING;
      CountedAt();
      var index := low / 8 % 64;
      var padlen := if index < 56 then 56 - index else 120 - index;
      var bits := EncodeCounts(low, high);
      LengthIsCounted(low, high, |fed|);
      ShortFits(|fed| % 64, padlen);
      PaddingIs(fed, padlen);
      Update(PADDING[..padlen]);
      ShortFits(|fed| % 64, 8);
      Update(bits[..]);
      digest := Md5Block.Encode([state.a, state.b, state.c, state.d]);
      assert fed[..|fed|] == fed;
      FourWords(state);
    }

    lemma CountedAt()
      requires Counts(low, high, |fed|)
      ensures low / 8 % 64 == |fed| % 64
    {
      CountedPosition(low, |fed|);
    }
  }

  lemma FitsIsShort(index: nat, len: nat)
    requires index < 64 && Fits(index, len)
    ensures len < TWO32
  {
  }

  lemma OneFurther(first: nat, i: nat, len: nat)
    requires first <= i && i + 64 <= len && (i - first) % 64 == 0
    ensures LastBlock(i + 64, len) == LastBlock(i, len) && (i + 64 - first) % 64 == 0
  {
  }

  lemma AddMultiples(a: nat, b: nat)
    requires a % 64 == 0 && b % 64 == 0
    ensures (a + b) % 64 == 0
  {
  }

  lemma BlockAppended(m: seq<Byte>, input: seq<Byte>, first: nat, i: nat)
    requires |m| % 64 == 0 && first <= i && (i - first) % 64 == 0 && i + 64 <= |input|
    ensures Fold(INIT, m + input[first..i + 64]) == Compress(Fold(INIT, m + input[first..i]), input[i..i + 64])
  {
    hide Fold, Compress;
    AddMultiples(|m|, i - first);
    assert m + input[first..i] + input[i..i + 64] == m + input[first..i + 64];
    FoldOneMore(INIT, m + input[first..i], input[i..i + 64]);
  }

  /** Where the whole blocks end after a chunk, and what is left over. */
  lemma WholeMoves(fed: seq<Byte>, input: seq<Byte>, index: nat)
    requires index == |fed| % 64
    ensures |input| < 64 - index ==>
      (&& Whole(|fed + input|) == Whole(|fed|)
       && (fed + input)[..Whole(|fed|)] == fed[..Whole(|fed|)]
       && (fed + input)[Whole(|fed|)..] == fed[Whole(|fed|)..] + input)
    ensures |input| >= 64 - index ==>
      (var i := LastBlock(64 - index, |input|);
       && Whole(|fed + input|) == |fed| + i
       && (|fed| + 64 - index) % 64 == 0
       && (fed + input)[..|fed| + i] == fed + input[..64 - index] + input[64 - index..i]
       && (fed + input)[|fed| + i..] == input[i..])
  {
    hide Whole, LastBlock;
    if |input| >= 64 - index {
      WholeEnds(|fed|, index, |input|);
      var i := LastBlock(64 - index, |input|);
      assert (fed + input)[..|fed| + i] == fed + input[..i];
      assert input[..i] == input[..64 - index] + input[64 - index..i];
      assert fed + (input[..64 - index] + input[64 - index..i]) == fed + input[..64 - index] + input[64 - index..i];
    } else {
      WholeStays(|fed|, index, |input|);
    }
  }

  lemma WholeEnds(len: nat, index: nat, more: nat)
    requires index == len % 64 && more >= 64 - index
    ensures (len + 64 - index) % 64 == 0 && Whole(len + more) == len + LastBlock(64 - index, more)
  {
    var i := LastBlock(64 - index, more);
    var q, r := len / 64, (i - (64 - index)) / 64;
    assert len + i == 64 * (q + 1 + r);
  }

  lemma WholeStays(len: nat, index: nat, more: nat)
    requires index == len % 64 && more < 64 - index
    ensures Whole(len + more) == Whole(len)
  {
  }

  // ---------- a message in chunks ----------

  lemma EmptyJoined(chunks: seq<seq<Byte>>)
    ensures Joined(chunks[..0]) == []
  {
  }

  lemma OneJoined(chunks: seq<seq<Byte>>, i: nat)
    requires i < |chunks|
    ensures Joined(chunks[..i + 1]) == Joined(chunks[..i]) + chunks[i]
  {
    assert chunks[..i + 1][..i] == chunks[..i];
  }

  /** Initialise, update once per chunk, finish: the digest of the whole message, whatever the chunks. */
  method DigestChunks(chunks: seq<seq<Byte>>) returns (digest: array<Byte>)
    requires forall i :: 0 <= i < |chunks| ==> Fits(|Joined(chunks[..i])| % 64, |chunks[i]|)
    ensures digest[..] == Digest(Joined(chunks))
  {
    hide Fits, Digest, Joined;
    EmptyJoined(chunks);
    var context := new Context();
    var i := 0;
    while i < |chunks|
      invariant i <= |chunks| && context.Valid() && context.fed == Joined(chunks[..i])
      invariant fresh(context) && fresh(context.buffer)
    {
      OneJoined(chunks, i);
      context.Update(chunks[i]);
      i := i + 1;
    }
    assert chunks[..i] == chunks;
    digest := context.Final();
  }
}
