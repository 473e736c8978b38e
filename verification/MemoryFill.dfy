// The memory-pressure payload: maps the requested size in chunks and fills every word from
// one xorshift stream that runs on from chunk to chunk.
module MemoryFill {

  const MIB := 1048576
  const WORD_BYTES := 4

  // ----- uint32_t, as its 32 bits, the least significant first -----

  datatype Bits = Bits(bit: seq<bool>)

  type Word32 = w: Bits | |w.bit| == 32 witness Bits(seq(32, _ => false))

  const ZERO: Word32 := Bits(seq(32, _ => false))

  function Pow2(k: nat): (r: nat)
    ensures r > 0
  {
    if k == 0 then 1 else 2 * Pow2(k - 1)
  }

  function FromNat(n: nat): Word32 {
    Bits(seq(32, i requires 0 <= i < 32 => n / Pow2(i) % 2 == 1))
  }

  const SEED: Word32 := FromNat(0x9e3779b9)

  function Xor(x: Word32, y: Word32): Word32 {
    Bits(seq(32, i requires 0 <= i < 32 => x.bit[i] != y.bit[i]))
  }

  function ShiftLeft(x: Word32, k: nat): Word32 {
    Bits(seq(32, i requires 0 <= i < 32 => k <= i && x.bit[i - k]))
  }

  function ShiftRight(x: Word32, k: nat): Word32 {
    Bits(seq(32, i requires 0 <= i < 32 => i + k < 32 && x.bit[i + k]))
  }

  // ----- the stream -----

  function Left(x: Word32, k: nat): Word32 {
    Xor(x, ShiftLeft(x, k))
  }

  function Right(x: Word32, k: nat): Word32 {
    Xor(x, ShiftRight(x, k))
  }

  function XorShift(s: Word32): Word32 {
    Left(Right(Left(s, 13), 17), 5)
  }

  function Stream(k: nat): Word32 {
    if k == 0 then SEED else XorShift(Stream(k - 1))
  }

  // A left step keeps the low bits and mixes each other bit with one below it, so equal
  // results have equal bits from the bottom up.
  lemma {:induction false} LeftBit(x: Word32, y: Word32, k: nat, i: nat)
    requires k > 0 && i < 32 && Left(x, k) == Left(y, k)
    ensures x.bit[i] == y.bit[i]
    decreases i
  {
    assert Left(x, k).bit[i] == Left(y, k).bit[i];
    if k <= i {
      LeftBit(x, y, k, i - k);
    }
  }

  lemma {:induction false} RightBit(x: Word32, y: Word32, k: nat, i: nat)
    requires k > 0 && i < 32 && Right(x, k) == Right(y, k)
    ensures x.bit[i] == y.bit[i]
    decreases 32 - i
  {
    assert Right(x, k).bit[i] == Right(y, k).bit[i];
    if i + k < 32 {
      RightBit(x, y, k, i + k);
    }
  }

  lemma LeftInjective(x: Word32, y: Word32, k: nat)
    requires k > 0 && Left(x, k) == Left(y, k)
    ensures x == y
  {
    forall i: nat | i < 32 ensures x.bit[i] == y.bit[i] {
      LeftBit(x, y, k, i);
    }
  }

  lemma RightInjective(x: Word32, y: Word32, k: nat)
    requires k > 0 && Right(x, k) == Right(y, k)
    ensures x == y
  {
    forall i: nat | i < 32 ensures x.bit[i] == y.bit[i] {
      RightBit(x, y, k, i);
    }
  }

  lemma XorShiftInjective(x: Word32, y: Word32)
    requires XorShift(x) == XorShift(y)
    ensures x == y
  {
    LeftInjective(Right(Left(x, 13), 17), Right(Left(y, 13), 17), 5);
    RightInjective(Left(x, 13), Left(y, 13), 17);
    LeftInjective(x, y, 13);
  }

  lemma ZeroStays()
    ensures XorShift(ZERO) == ZERO && SEED != ZERO
  {
    assert Left(ZERO, 13) == ZERO;
    assert Right(ZERO, 17) == ZERO;
    assert Left(ZERO, 5) == ZERO;
    assert SEED.bit[0];
  }

  // The state never becomes zero, from where the stream would never leave.
  lemma {:induction false} StreamNeverZero(k: nat)
    ensures Stream(k) != ZERO
  {
    ZeroStays();
    hide XorShift;
    if k > 0 {
      StreamNeverZero(k - 1);
      if Stream(k) == ZERO {
        XorShiftInjective(Stream(k - 1), ZERO);
      }
    }
  }

  // The stream has no tail: it can only repeat by coming back to its seed.
  lemma {:induction false} RepeatsFromTheSeed(i: nat, j: nat)
    requires i < j && Stream(i) == Stream(j)
    ensures Stream(j - i) == SEED
  {
    hide XorShift;
    if i > 0 {
      XorShiftInjective(Stream(i - 1), Stream(j - 1));
      RepeatsFromTheSeed(i - 1, j - 1);
    }
  }

  // ----- the words written -----

  // `state | 1`: the word written is odd whatever the state.
  function Word(state: Word32): Word32 {
    Bits(state.bit[0 := true])
  }

  // The n words that follow the first `from` of the stream.
  function Words(from: nat, n: nat): (r: seq<Word32>)
    ensures |r| == n
  {
    if n == 0 then [] else Words(from, n - 1) + [Word(Stream(from + n))]
  }

  lemma {:induction false} WordsAt(from: nat, n: nat, k: nat)
    requires k < n
    ensures Words(from, n)[k] == Word(Stream(from + k + 1))
    ensures Words(from, n)[k].bit[0]
    ensures forall i | 1 <= i < 32 :: Words(from, n)[k].bit[i] == Stream(from + k + 1).bit[i]
  {
    hide Stream;
    if k < n - 1 {
      WordsAt(from, n - 1, k);
    }
  }

  // Bit i of y is that of x, mixed with the one d below it, or above it.
  predicate MixesBelow(x: Word32, y: Word32, d: nat, i: nat)
    requires i < 32
  {
    y.bit[i] == (x.bit[i] != (i >= d && x.bit[i - d]))
  }

  predicate MixesAbove(x: Word32, y: Word32, d: nat, i: nat)
    requires i < 32
  {
    y.bit[i] == (x.bit[i] != (i + d < 32 && x.bit[i + d]))
  }

  lemma LeftIs(x: Word32, y: Word32, k: nat)
    requires forall i: nat | i < 32 :: MixesBelow(x, y, k, i)
    ensures Left(x, k) == y
  {
    forall i: nat | i < 32 ensures Left(x, k).bit[i] == y.bit[i] {
      assert MixesBelow(x, y, k, i);
    }
    assert Left(x, k).bit == y.bit;
  }

  lemma RightIs(x: Word32, y: Word32, k: nat)
    requires forall i: nat | i < 32 :: MixesAbove(x, y, k, i)
    ensures Right(x, k) == y
  {
    forall i: nat | i < 32 ensures Right(x, k).bit[i] == y.bit[i] {
      assert MixesAbove(x, y, k, i);
    }
    assert Right(x, k).bit == y.bit;
  }

  // A step of the stream, bit by bit: every bit is mixed with the one 13 below it, then with
  // the one 17 above it, then with the one 5 below it.
  lemma StepBits(s: Word32, a: Word32, b: Word32, r: Word32)
    requires forall i: nat | i < 32 :: MixesBelow(s, a, 13, i)
    requires forall i: nat | i < 32 :: MixesAbove(a, b, 17, i)
    requires forall i: nat | i < 32 :: MixesBelow(b, r, 5, i)
    ensures XorShift(s) == r
  {
    hide Left;
    hide Right;
    LeftIs(s, a, 13);
    RightIs(a, b, 17);
    LeftIs(b, r, 5);
  }

  lemma {:induction false} WordsJoin(from: nat, m: nat, n: nat)
    ensures Words(from, m) + Words(from + m, n) == Words(from, m + n)
  {
    if n > 0 {
      WordsJoin(from, m, n - 1);
    }
  }

  lemma NextWord(from: nat, k: nat)
    ensures Words(from, 0) == []
    ensures Stream(from + k + 1) == XorShift(Stream(from + k))
    ensures Words(from, k + 1) == Words(from, k) + [Word(Stream(from + k + 1))]
  {}

  function Min(a: nat, b: nat): nat {
    if a < b then a else b
  }

  method NextState(start: Word32) returns (state: Word32)
    ensures state == XorShift(start)
  {
    state := start;
    state := Xor(state, ShiftLeft(state, 13));
    state := Xor(state, ShiftRight(state, 17));
    state := Xor(state, ShiftLeft(state, 5));
  }

  // Fills one mapping page by page, and returns the state the stream has reached. Positions
  // are in bytes; k and p count the words before them.
  method FillChunk(words: array<Word32>, chunkBytes: nat, pageBytes: nat, ghost from: nat, start: Word32)
      returns (state: Word32)
    requires pageBytes > 0 && pageBytes % WORD_BYTES == 0
    requires chunkBytes == WORD_BYTES * words.Length && start == Stream(from)
    modifies words
    ensures words[..] == Words(from, words.Length)
    ensures state == Stream(from + words.Length)
  {
    hide XorShift;
    hide Word;
    hide Stream;
    hide Words;
    NextWord(from, 0);
    state := start;
    var page := 0;
    ghost var p := 0;
    ghost var pageWords := pageBytes / WORD_BYTES;
    while page < chunkBytes
      invariant page == WORD_BYTES * p
      invariant state == Stream(from + Min(p, words.Length))
      invariant words[..Min(p, words.Length)] == Words(from, Min(p, words.Length))
      decreases chunkBytes - page
    {
      var end := page + pageBytes;
      if end > chunkBytes {
        end := chunkBytes;
      }
      ghost var last := Min(p + pageWords, words.Length);
      assert end == WORD_BYTES * last;
      var offset := page;
      ghost var k := p;
      while offset < end
        invariant offset == WORD_BYTES * k && p <= k <= last
        invariant state == Stream(from + k)
        invariant words[..k] == Words(from, k)
      {
        NextWord(from, k);
        state := NextState(state);
        words[offset / WORD_BYTES] := Word(state);
        assert words[..k + 1] == words[..k] + [Word(state)];
        offset, k := offset + WORD_BYTES, k + 1;
      }
      page, p := page + pageBytes, p + pageWords;
    }
    assert words[..words.Length] == words[..];
  }

  // One granted mapping, filled; its contents are not touched again.
  method MapChunk(chunkBytes: nat, pageBytes: nat, from: nat, start: Word32)
      returns (contents: seq<Word32>, state: Word32)
    requires pageBytes > 0 && pageBytes % WORD_BYTES == 0
    requires chunkBytes % WORD_BYTES == 0 && start == Stream(from)
    ensures WORD_BYTES * |contents| == chunkBytes
    ensures contents == Words(from, |contents|)
    ensures state == Stream(from + |contents|)
  {
    hide Stream;
    hide Words;
    var words := new Word32[chunkBytes / WORD_BYTES];
    state := FillChunk(words, chunkBytes, pageBytes, from, start);
    contents := words[..];
  }

  datatype Filled = Filled(ok: bool, chunks: seq<seq<Word32>>, words: nat)

  function Concat(chunks: seq<seq<Word32>>): seq<Word32> {
    if chunks == [] then [] else Concat(chunks[..|chunks| - 1]) + chunks[|chunks| - 1]
  }

  ghost predicate WithinChunkSize(chunks: seq<seq<Word32>>) {
    forall i | 0 <= i < |chunks| :: 0 < |chunks[i]| * WORD_BYTES <= 4 * MIB
  }

  // Chunks hold the first `written` words of the stream, in order.
  ghost predicate HoldStream(chunks: seq<seq<Word32>>, written: nat) {
    WithinChunkSize(chunks) && Concat(chunks) == Words(0, written)
  }

  lemma PushChunk(chunks: seq<seq<Word32>>, written: nat, last: seq<Word32>)
    requires HoldStream(chunks, written)
    requires last == Words(written, |last|) && 0 < |last| * WORD_BYTES <= 4 * MIB
    ensures HoldStream(chunks + [last], written + |last|)
  {
    hide Words;
    WordsJoin(0, written, |last|);
    assert (chunks + [last])[..|chunks|] == chunks;
  }

  // A request is served in chunks of 4 MiB and perhaps a smaller last one.
  function ChunkCount(megabytes: nat): nat {
    (megabytes + 3) / 4
  }

  function MibLeft(megabytes: nat, chunks: nat): nat {
    if 4 * chunks < megabytes then megabytes - 4 * chunks else 0
  }

  function ChunkBytes(remaining: nat): nat {
    if remaining < 4 * MIB then remaining else 4 * MIB
  }

  lemma ChunkStep(megabytes: nat, chunks: nat, remaining: nat)
    requires remaining == MibLeft(megabytes, chunks) * MIB && remaining > 0
    ensures chunks < ChunkCount(megabytes)
    ensures 0 < ChunkBytes(remaining) <= remaining && ChunkBytes(remaining) <= 4 * MIB
    ensures ChunkBytes(remaining) % WORD_BYTES == 0
    ensures remaining - ChunkBytes(remaining) == MibLeft(megabytes, chunks + 1) * MIB
    ensures MibLeft(megabytes, chunks + 1) == 0 ==> chunks + 1 == ChunkCount(megabytes)
  {
    var left := MibLeft(megabytes, chunks);
    assert ChunkBytes(remaining) == (if left < 4 then left else 4) * 262144 * WORD_BYTES;
  }

  lemma AtStart(megabytes: nat)
    ensures Stream(0) == SEED && HoldStream([], 0) && MibLeft(megabytes, 0) == megabytes
  {}

  // `mappings` is how many times the kernel grants a mapping before it refuses one.
  method Fill(megabytes: nat, pageBytes: nat, mappings: nat) returns (filled: Filled)
    requires 1 <= megabytes <= 16384 && pageBytes > 0 && pageBytes % WORD_BYTES == 0
    ensures HoldStream(filled.chunks, filled.words)
    ensures filled.ok ==> filled.words * WORD_BYTES == megabytes * MIB
    ensures filled.ok <==> ChunkCount(megabytes) <= mappings
    ensures |filled.chunks| == if filled.ok then ChunkCount(megabytes) else mappings
  {
    hide XorShift;
    hide Words;
    hide Stream;
    hide FromNat;
    hide ChunkBytes;
    hide HoldStream;
    hide MibLeft;
    hide ChunkCount;
    var remaining := megabytes * MIB;
    var state := SEED;
    var chunks: seq<seq<Word32>> := [];
    var written: nat := 0;
    AtStart(megabytes);
    while remaining > 0
      invariant remaining == MibLeft(megabytes, |chunks|) * MIB
      invariant remaining == 0 ==> |chunks| == ChunkCount(megabytes)
      invariant |chunks| <= mappings
      invariant written * WORD_BYTES + remaining == megabytes * MIB
      invariant state == Stream(written) && HoldStream(chunks, written)
      decreases remaining
    {
      ChunkStep(megabytes, |chunks|, remaining);
      var chunkBytes := ChunkBytes(remaining);
      if |chunks| == mappings {
        return Filled(false, chunks, written);
      }
      var contents;
      contents, state := MapChunk(chunkBytes, pageBytes, written, state);
      PushChunk(chunks, written, contents);
      chunks := chunks + [contents];
      written := written + |contents|;
      remaining := remaining - chunkBytes;
    }
    return Filled(true, chunks, written);
  }
}
