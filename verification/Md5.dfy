/**
 The incremental MD5 of the PLC runtime. Bytes may be fed in pieces of any size, and a digest may be taken
 at any time without disturbing the stream (RFC 1321, sections 3.1 to 3.5).
 */
module Md5 {
  import opened Sequences
  import opened Md5Block

  const TWO_64: int := 0x1_0000_0000_0000_0000

  const INITIAL: Words := Words(0x67452301, 0xefcdab89, 0x98badcfe, 0x10325476)

  /** Folding is described for any compression of a block into a state. */
  type Compression = (Words, seq<Byte>) -> Words

  function CompressionOf(op: Operation): Compression {
    (w: Words, block: seq<Byte>) => if |block| == 64 then Compress(op, w, block) else w
  }

  /** Triggered by the steps only, so that proofs about folding do not see them. */
  ghost predicate Computes(op: Operation, f: Compression) {
    forall w, block {:trigger Compress(op, w, block)} :: |block| == 64 ==> f(w, block) == Compress(op, w, block)
  }

  // ----- The digest of a message

  /** The state after the first `n` blocks of a message. */
  function Fold(f: Compression, m: seq<Byte>, n: nat): Words
    requires 64 * n <= |m|
  {
    if n == 0 then INITIAL else f(Fold(f, m, n - 1), m[64 * n - 64..64 * n])
  }

  /** How many bytes of padding, before the length, follow a message of `n` bytes. */
  function PadLength(n: nat): (r: nat)
    ensures 1 <= r <= 64
  {
    if n % 64 < 56 then 56 - n % 64 else 120 - n % 64
  }

  /** A one bit, then zeros. */
  function Padding(n: nat): (r: seq<Byte>)
    ensures |r| == n
  {
    seq(n, k => if k == 0 then 0x80 else 0)
  }

  /** Padding ends on a block boundary. */
  lemma PaddedWhole(n: nat)
    ensures (n + PadLength(n) + 8) % 64 == 0
  {
  }

  lemma PaddingPrefix(n: nat, k: nat)
    requires k <= n
    ensures Padding(n)[..k] == Padding(k)
  {
  }

  lemma WholeBlocks(n: nat, blocks: nat)
    requires n % 64 == 0 && 64 * blocks <= n < 64 * blocks + 64
    ensures blocks == n / 64
  {
  }

  /** The bit count modulo 2^64 as two words, the low one first. */
  function BitCount(n: nat): seq<Word> {
    [8 * n % TWO_32, 8 * n / TWO_32 % TWO_32]
  }

  /** Sections 3.1 and 3.2: a one bit, zeros up to 56 modulo 64, and the length in bits. */
  function Padded(m: seq<Byte>): (r: seq<Byte>)
    ensures |r| % 64 == 0
  {
    PaddedWhole(|m|);
    m + Padding(PadLength(|m|)) + Encode(BitCount(|m|))
  }

  function Listed(w: Words): seq<Word> {
    [w.a, w.b, w.c, w.d]
  }

  /** The digest of a whole message. */
  function DigestOf(f: Compression, m: seq<Byte>): (r: seq<Byte>)
    ensures |r| == 16
  {
    Encode(Listed(Fold(f, Padded(m), |Padded(m)| / 64)))
  }

  /** The state depends on the folded blocks only. */
  lemma {:induction false} FoldPrefix(f: Compression, m: seq<Byte>, more: seq<Byte>, n: nat)
    requires 64 * n <= |m|
    ensures Fold(f, m + more, n) == Fold(f, m, n)
    decreases n
  {
    if n > 0 {
      FoldPrefix(f, m, more, n - 1);
      assert (m + more)[64 * n - 64..64 * n] == m[64 * n - 64..64 * n];
    }
  }

  /** The buffered bytes and the first of the new ones make up a block. */
  lemma FilledBlock(buffered: seq<Byte>, fed: seq<Byte>, input: seq<Byte>, first: seq<Byte>, start: nat)
    requires start <= |fed| && buffered == fed[start..] && first <= input && |fed| + |first| == start + 64
    ensures buffered + first == (fed + input)[start..start + 64]
  {
    assert first == input[..|first|];
  }

  lemma InInput(fed: seq<Byte>, input: seq<Byte>, i: nat)
    requires i + 64 <= |input|
    ensures (fed + input)[|fed| + i..|fed| + i + 64] == input[i..i + 64]
  {
  }

  /** What is buffered before, and the rest of the input, are what is buffered afterwards. */
  lemma BufferedRest(fed: seq<Byte>, input: seq<Byte>, rest: seq<Byte>, start: nat, index: nat)
    requires |rest| <= |input| && rest == input[|input| - |rest|..] && start + index + |rest| == |fed| + |input|
    requires start <= |fed| + |input| && (index == 0 || |rest| == |input|)
    ensures (fed + input)[start..] == (if index == 0 then [] else fed[start..]) + rest
  {
  }

  // ----- The counter

  /** The two words count the bits of `n` bytes; they have passed 2^64 `wraps` times. */
  ghost predicate Counts(low: Word, high: Word, n: nat, wraps: nat) {
    8 * n == low + TWO_32 * high + TWO_64 * wraps
  }

  /** The counter is the number of bits modulo 2^64. */
  lemma CounterExact(low: Word, high: Word, n: nat, wraps: nat)
    requires Counts(low, high, n, wraps)
    ensures [low, high] == BitCount(n)
  {
    assert 8 * n / TWO_32 == high + TWO_32 * wraps;
    WordDrop(high, 0 - wraps);
  }

  lemma WordDrop(x: int, q: int)
    ensures (x - TWO_32 * q) % TWO_32 == x % TWO_32
  {
  }

  /** The number of bytes in the buffer, as the code computes it, is the byte count modulo 64. */
  lemma IndexExact(low: Word, high: Word, n: nat, wraps: nat, blocks: nat)
    requires Counts(low, high, n, wraps) && 64 * blocks <= n < 64 * blocks + 64
    ensures low / 8 % 64 == n - 64 * blocks == n % 64
  {
    var q := high + TWO_32 * wraps;
    var r := n - 0x2000_0000 * q;
    assert low == 8 * r;
    assert r == 64 * (blocks - 0x80_0000 * q) + (n - 64 * blocks);
    Remainder(blocks - 0x80_0000 * q, n - 64 * blocks);
    Remainder(blocks, n - 64 * blocks);
  }

  lemma Remainder(quotient: int, rest: int)
    requires 0 <= rest < 64
    ensures (64 * quotient + rest) % 64 == rest
  {
  }

  /** A sum of two words wraps around at most once. */
  lemma SumWraps(x: Word, y: Word)
    ensures (x + y) % TWO_32 == x + y - (if x + y < TWO_32 then 0 else TWO_32)
  {
  }

  lemma LowBits(length: Word)
    ensures length * 8 % TWO_32 == 8 * length - TWO_32 * (length / 0x2000_0000)
  {
  }

  /** What is added to the counter: the low word may carry into the high one. */
  lemma CountExact(low: Word, high: Word, n: nat, wraps: nat, length: Word) returns (wraps': nat)
    requires Counts(low, high, n, wraps)
    ensures var bits := length * 8 % TWO_32;
            var low' := (low + bits) % TWO_32;
            var carried: Word := if low' < bits then (high + 1) % TWO_32 else high;
            Counts(low', (carried + length / 0x2000_0000) % TWO_32, n + length, wraps')
  {
    var p: Word := length / 0x2000_0000;
    var bits: Word := length * 8 % TWO_32;
    LowBits(length);
    SumWraps(low, bits);
    SumWraps(high, 1);
    var low' := (low + bits) % TWO_32;
    var carried: Word := if low' < bits then (high + 1) % TWO_32 else high;
    SumWraps(carried, p);
    wraps' := wraps + (if carried < high then 1 else 0) + (if carried + p < TWO_32 then 0 else 1);
  }

  // ----- The loop guard

  /** The guard of the loop over the blocks, in 32-bit arithmetic. */
  predicate MoreBlocks(i: Word, length: Word) {
    (i + 64) % TWO_32 <= length
  }

  /** The lengths for which the guard is right wherever it is evaluated. */
  predicate LengthSafe(index: nat, length: nat) {
    length < TWO_32 - 64 + (64 - index) % 64
  }

  /** The places at which the loop evaluates its guard when nothing wraps around. */
  ghost predicate Evaluated(index: nat, length: nat, i: nat) {
    64 - index <= i <= length && (i + index) % 64 == 0
  }

  /** The guard tells whether another block fits, at every place where it is evaluated, exactly for safe lengths. */
  lemma GuardExact(index: nat, length: Word)
    requires index < 64
    ensures (forall i: Word :: Evaluated(index, length, i) ==> (MoreBlocks(i, length) <==> i + 64 <= length))
        <==> LengthSafe(index, length)
  {
    if LengthSafe(index, length) {
      forall i: Word | Evaluated(index, length, i)
        ensures MoreBlocks(i, length) <==> i + 64 <= length
      {
        GuardSafe(index, length, i, (i + index) / 64);
      }
    } else {
      var i: Word := TWO_32 - 64 + (64 - index) % 64;
      assert Evaluated(index, length, i) && MoreBlocks(i, length) && !(i + 64 <= length);
    }
  }

  lemma GuardSafe(index: nat, length: Word, i: Word, k: nat)
    requires index < 64 && LengthSafe(index, length) && i <= length && i + index == 64 * k
    ensures MoreBlocks(i, length) <==> i + 64 <= length
    ensures i + 64 < TWO_32
  {
    assert k < 0x400_0000;
  }

  /** Lengths that are safe however full the buffer is. */
  const LENGTH_LIMIT: int := TWO_32 - 64

  lemma ShortIsSafe(length: nat)
    requires length < LENGTH_LIMIT
    ensures forall index: nat :: LengthSafe(index, length)
  {
  }

  /** With an empty buffer, a length of 2^32 - 64 makes the guard ask for a block beyond the input. */
  lemma GuardWraps()
    ensures Evaluated(0, 0xffff_ffc0, 0xffff_ffc0) && MoreBlocks(0xffff_ffc0, 0xffff_ffc0)
    ensures !(0xffff_ffc0 + 64 <= 0xffff_ffc0)
  {
  }

  class MD5 {
    const op: Operation
    ghost const f: Compression
    const buffer: array<Byte>
    const count: array<Word>
    const state: array<Word>
    /** All that was fed, the number of its whole blocks, and how often the counter has wrapped around. */
    ghost var fed: seq<Byte>
    ghost var blocks: nat
    ghost var wraps: nat

    ghost predicate Shaped()
      reads this
    {
      buffer.Length == 64 && count.Length == 2 && state.Length == 4 && count != state && Computes(op, f)
    }

    ghost function Now(): Words
      reads this, state
      requires Shaped()
    {
      Words(state[0], state[1], state[2], state[3])
    }

    /** The state folds the whole blocks of what was fed; the buffer starts with the rest. */
    ghost predicate Valid()
      reads this, buffer, count, state
    {
      && Shaped() && 64 * blocks <= |fed| < 64 * blocks + 64
      && Counts(count[0], count[1], |fed|, wraps)
      && Now() == Fold(f, fed, blocks)
      && buffer[..|fed| - 64 * blocks] == fed[64 * blocks..]
    }

    constructor ()
      ensures Valid() && fed == [] && f == CompressionOf(Operate)
      ensures fresh(buffer) && fresh(count) && fresh(state)
    {
      op, f := Operate, CompressionOf(Operate);
      buffer := new Byte[64](_ => 0);
      count := new Word[2](_ => 0);
      state := new Word[] [0x67452301, 0xefcdab89, 0x98badcfe, 0x10325476];
      fed, blocks, wraps := [], 0, 0;
    }

    method TransformState(block: seq<Byte>)
      requires Shaped() && |block| == 64
      modifies state
      ensures Now() == f(old(Now()), block)
    {
      var w := Transform(op, Words(state[0], state[1], state[2], state[3]), block);
      state[0], state[1], state[2], state[3] := w.a, w.b, w.c, w.d;
    }

    method Index() returns (index: Word)
      requires Valid()
      ensures index == |fed| - 64 * blocks == |fed| % 64
    {
      index := count[0] / 8 % 64;
      IndexExact(count[0], count[1], |fed|, wraps, blocks);
    }

    method Count(length: Word)
      requires Shaped() && Counts(count[0], count[1], |fed|, wraps)
      modifies count, this`wraps
      ensures Counts(count[0], count[1], |fed| + length, wraps)
    {
      wraps := CountExact(count[0], count[1], |fed|, wraps, length);
      var bits := length * 8 % TWO_32;
      count[0] := (count[0] + bits) % TWO_32;
      if count[0] < bits {
        count[1] := (count[1] + 1) % TWO_32;
      }
      count[1] := (count[1] + length / 0x2000_0000) % TWO_32;
    }

    /** Copies into the buffer, from `index` on. */
    method Fill(index: nat, input: seq<Byte>)
      requires Shaped() && index + |input| <= 64
      modifies buffer
      ensures buffer[..index] == old(buffer[..index]) && buffer[index..index + |input|] == input
    {
      forall k | 0 <= k < |input| {
        buffer[index + k] := input[k];
      }
    }

    /**
     Feeds more bytes: first the buffer is filled up and transformed, then whole blocks are transformed where
     they are, and the rest is buffered.
     */
    method Update(input: seq<Byte>)
      requires Valid() && LengthSafe(|fed| % 64, |input|)
      modifies this`fed, this`blocks, this`wraps, buffer, count, state
      ensures Valid() && fed == old(fed) + input
    {
      var length: Word := |input|;
      var index := Index();
      Count(length);
      var firstpart := 64 - index;
      if length < firstpart {
        FoldPrefix(f, fed, input, blocks);
        BufferRest(input, index, 0);
        return;
      }
      TransformFirst(input[..firstpart], input);
      var i := TransformBlocks(input, index);
      BufferRest(input, 0, i);
    }

    /** Fills the buffer up and transforms it. */
    method TransformFirst(first: seq<Byte>, ghost input: seq<Byte>)
      requires Shaped() && 64 * blocks <= |fed| < 64 * blocks + 64
      requires Now() == Fold(f, fed, blocks) && buffer[..|fed| - 64 * blocks] == fed[64 * blocks..]
      requires first <= input && |fed| + |first| == 64 * blocks + 64
      modifies this`blocks, buffer, state
      ensures blocks == old(blocks) + 1
      ensures Now() == Fold(f, fed + input, blocks)
    {
      Fill(64 - |first|, first);
      FilledBlock(buffer[..64 - |first|], fed, input, first, 64 * blocks);
      assert buffer[..] == buffer[..64 - |first|] + first;
      FoldPrefix(f, fed, input, blocks);
      TransformState(buffer[..]);
      blocks := blocks + 1;
    }

    /** Transforms the whole blocks of the input after its first part. */
    method TransformBlocks(input: seq<Byte>, index: nat) returns (i: Word)
      requires Shaped() && index < 64 && 64 - index <= |input| && LengthSafe(index, |input|)
      requires |fed| + 64 - index == 64 * blocks && Now() == Fold(f, fed + input, blocks)
      modifies this`blocks, state
      ensures i <= |input| < i + 64 && |fed| + i == 64 * blocks
      ensures Now() == Fold(f, fed + input, blocks)
    {
      i := 64 - index;
      ghost var k := 1;
      GuardSafe(index, |input|, i, k);
      while MoreBlocks(i, |input|)
        invariant i <= |input| && i + index == 64 * k && i + 64 < TWO_32
        invariant |fed| + i == 64 * blocks
        invariant Now() == Fold(f, fed + input, blocks)
        invariant MoreBlocks(i, |input|) <==> i + 64 <= |input|
        decreases |input| - i
      {
        InInput(fed, input, i);
        TransformState(input[i..i + 64]);
        i, k, blocks := i + 64, k + 1, blocks + 1;
        GuardSafe(index, |input|, i, k);
      }
    }

    method BufferRest(input: seq<Byte>, index: nat, i: nat)
      requires Shaped() && i <= |input| && index + |input| - i < 64
      requires |fed| + i == 64 * blocks + index && (index == 0 || i == 0)
      requires Now() == Fold(f, fed + input, blocks) && Counts(count[0], count[1], |fed| + |input|, wraps)
      requires i == 0 ==> buffer[..index] == fed[64 * blocks..]
      modifies this`fed, buffer
      ensures Valid() && fed == old(fed) + input
    {
      ghost var rest := input[i..];
      Fill(index, input[i..]);
      assert buffer[..index + |rest|] == buffer[..index] + rest;
      BufferedRest(fed, input, rest, 64 * blocks, index);
      ghost var all := fed + input;
      assert |all| - 64 * blocks == index + |rest| && buffer[..index + |rest|] == all[64 * blocks..];
      fed := all;
    }

    /** The number of bits fed, as eight bytes. */
    method CountBytes() returns (result: seq<Byte>)
      requires Valid()
      ensures result == Encode(BitCount(|fed|))
    {
      var bits := new Byte[8];
      CounterExact(count[0], count[1], |fed|, wraps);
      assert count[..] == BitCount(|fed|);
      EncodeInto(bits, count[..]);
      result := bits[..];
    }

    /** Feeds the padding and the length. */
    method FeedPadding()
      requires Valid()
      modifies this`fed, this`blocks, this`wraps, buffer, count, state
      ensures Valid() && fed == Padded(old(fed)) && blocks == |fed| / 64
    {
      var bits := CountBytes();
      var index := Index();
      var padLength := if index < 56 then 56 - index else 120 - index;
      assert padLength == PadLength(|fed|);
      var padding := Padding(64)[..padLength];
      PaddingPrefix(64, padLength);
      ShortIsSafe(padLength);
      ShortIsSafe(8);
      Update(padding);
      Update(bits);
      assert fed == old(fed) + padding + bits;
      assert fed == Padded(old(fed));
      WholeBlocks(|fed|, blocks);
    }

    /** The state, byte by byte. */
    method StateBytes() returns (result: seq<Byte>)
      requires Shaped()
      ensures result == Encode(Listed(Now()))
    {
      var data := new Byte[16];
      assert state[..] == Listed(Now());
      EncodeInto(data, state[..]);
      result := data[..];
    }

    /** Puts back what was saved. */
    method Restore(buffer': seq<Byte>, count': seq<Word>, state': seq<Word>)
      requires Shaped() && |buffer'| == 64 && |count'| == 2 && |state'| == 4
      modifies buffer, count, state
      ensures buffer[..] == buffer' && count[..] == count' && state[..] == state'
    {
      forall i | 0 <= i < 64 {
        buffer[i] := buffer'[i];
      }
      count[0], count[1] := count'[0], count'[1];
      state[0], state[1], state[2], state[3] := state'[0], state'[1], state'[2], state'[3];
    }

    /** Takes the digest of what was fed so far, and puts everything back as it was. */
    method Digest() returns (result: seq<Byte>)
      requires Valid()
      modifies this`fed, this`blocks, this`wraps, buffer, count, state
      ensures result == DigestOf(f, old(fed))
      ensures Valid() && fed == old(fed)
      ensures buffer[..] == old(buffer[..]) && count[..] == old(count[..]) && state[..] == old(state[..])
    {
      var buffer', count', state' := buffer[..], count[..], state[..];
      ghost var fed', blocks', wraps' := fed, blocks, wraps;
      FeedPadding();
      result := StateBytes();
      Restore(buffer', count', state');
      fed, blocks, wraps := fed', blocks', wraps';
      assert count[0] == count'[0] && count[1] == count'[1];
      assert Now() == Words(state'[0], state'[1], state'[2], state'[3]);
    }
  }

  // ----- Updates and digests in any order

  datatype Call = Feed(bytes: seq<Byte>) | TakeDigest

  function FedBy(calls: seq<Call>): seq<Byte> {
    if calls == [] then []
    else FedBy(calls[..|calls| - 1]) + (if calls[|calls| - 1].Feed? then calls[|calls| - 1].bytes else [])
  }

  /** Every digest is that of the whole message fed before it. */
  function DigestsOf(f: Compression, calls: seq<Call>): seq<seq<Byte>> {
    if calls == [] then []
    else
      DigestsOf(f, calls[..|calls| - 1])
      + (if calls[|calls| - 1].TakeDigest? then [DigestOf(f, FedBy(calls[..|calls| - 1]))] else [])
  }

  /** However updates and digests follow each other, each digest is that of all bytes fed before it. */
  method Interleaved(calls: seq<Call>) returns (digests: seq<seq<Byte>>)
    requires forall i :: 0 <= i < |calls| && calls[i].Feed? ==>
               LengthSafe(|FedBy(calls[..i])| % 64, |calls[i].bytes|)
    ensures digests == DigestsOf(CompressionOf(Operate), calls)
  {
    var h := new MD5();
    digests := [];
    for k := 0 to |calls|
      invariant h.Valid() && h.f == CompressionOf(Operate) && h.fed == FedBy(calls[..k])
      invariant fresh(h) && fresh(h.buffer) && fresh(h.count) && fresh(h.state)
      invariant digests == DigestsOf(h.f, calls[..k])
    {
      CallsTurn(h.f, calls, k);
      var more := Serve(h, calls[k]);
      digests := digests + more;
    }
    assert calls[..|calls|] == calls;
  }

  lemma CallsTurn(f: Compression, calls: seq<Call>, k: nat)
    requires k < |calls|
    ensures FedBy(calls[..k + 1]) == FedBy(calls[..k]) + if calls[k].Feed? then calls[k].bytes else []
    ensures DigestsOf(f, calls[..k + 1])
         == DigestsOf(f, calls[..k]) + if calls[k].TakeDigest? then [DigestOf(f, FedBy(calls[..k]))] else []
  {
    assert calls[..k + 1][..k] == calls[..k];
  }

  /** One call; the digest, if it asks for one. */
  method Serve(h: MD5, call: Call) returns (digests: seq<seq<Byte>>)
    requires h.Valid() && (call.Feed? ==> LengthSafe(|h.fed| % 64, |call.bytes|))
    modifies h`fed, h`blocks, h`wraps, h.buffer, h.count, h.state
    ensures h.Valid() && h.fed == old(h.fed) + if call.Feed? then call.bytes else []
    ensures digests == if call.TakeDigest? then [DigestOf(h.f, old(h.fed))] else []
  {
    match call
    case Feed(bytes) =>
      h.Update(bytes);
      digests := [];
    case TakeDigest =>
      var digest := h.Digest();
      digests := [digest];
      NothingAppended(h.fed);
  }
}
