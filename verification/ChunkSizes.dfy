/** How `splitPiecesRabinKarp` chooses its sizes, and how many chunks a plain text can therefore have. */
module ChunkSizes {

  import opened Utf8
  import opened RabinKarp
  import opened ChunkGuarantees

  const MAX_CHUNK_COUNT := 500
  const UNIT_STEP := 32
  const UNIT_BINARY := 256 * 1024
  const PLAIN_LIMIT := 4 * 1024 * 1024
  const PIECE_SIZE_FLOOR := 30 * 1024

  function Max(a: int, b: int): int {
    if a < b then b else a
  }

  function Min(a: int, b: int): int {
    if a < b then a else b
  }

  /** `dataSize / (unit * 4) > MAX_CHUNK_COUNT`, over the rationals */
  predicate TooManyChunks(dataSize: nat, unit: nat) {
    dataSize > MAX_CHUNK_COUNT * (unit * 4)
  }

  /** The unit the plain sizes are built from, searched upwards in steps of 32 bytes. */
  function UnitFrom(dataSize: nat, unit: nat): nat
    decreases dataSize - 2000 * unit
  {
    if TooManyChunks(dataSize, unit) then UnitFrom(dataSize, unit + UNIT_STEP) else unit
  }

  function UnitFor(dataSize: nat): nat {
    UnitFrom(dataSize, 64)
  }

  method SelectUnit(dataSize: nat) returns (chunkUnitPlain: nat)
    ensures chunkUnitPlain == UnitFor(dataSize)
  {
    chunkUnitPlain := 64;
    while TooManyChunks(dataSize, chunkUnitPlain)
      invariant UnitFor(dataSize) == UnitFrom(dataSize, chunkUnitPlain)
      decreases dataSize - 2000 * chunkUnitPlain
    {
      chunkUnitPlain := chunkUnitPlain + UNIT_STEP;
    }
  }

  /** The search ends at the least unit of its steps that keeps the estimate of the chunk count within its limit. */
  lemma {:induction false} UnitIsLeast(dataSize: nat, unit: nat)
    ensures var u := UnitFrom(dataSize, unit);
            && u >= unit && (u - unit) % UNIT_STEP == 0
            && dataSize <= 2000 * u
            && (u == unit || dataSize > 2000 * (u - UNIT_STEP))
    decreases dataSize - 2000 * unit
  {
    if TooManyChunks(dataSize, unit) {
      UnitIsLeast(dataSize, unit + UNIT_STEP);
    }
  }

  predicate SplitsPlain(dataSize: nat, doPlainSplit: bool, isText: bool) {
    (doPlainSplit || isText) && dataSize < PLAIN_LIMIT
  }

  function SizesFor(plain: bool, unit: nat, absoluteMax: int, minimumChunkSize: int, isText: bool): Params {
    var fixedAvg := if plain then unit * 4 else UNIT_BINARY * 4;
    var fixedMax := if plain then unit * 16 else UNIT_BINARY * 16;
    var fixedMin := if plain then unit * 2 else UNIT_BINARY;
    var max := Min(fixedMax, Max(absoluteMax, PIECE_SIZE_FLOOR));
    var min := Min(Max(fixedMin, minimumChunkSize), max);
    Params(min, Min(Max(fixedAvg, min), max), max, isText)
  }

  /** Whatever the caller asks for, the window fits into the smallest chunk and the three sizes are in order. */
  lemma SizesAreOrdered(plain: bool, unit: nat, absoluteMax: int, minimumChunkSize: int, isText: bool)
    requires unit >= 64
    ensures var p := SizesFor(plain, unit, absoluteMax, minimumChunkSize, isText);
            WINDOW <= p.minSize <= p.avgSize <= p.maxSize
  {
  }

  function ParamsFor(dataSize: nat, absoluteMax: int, doPlainSplit: bool, minimumChunkSize: int, isText: bool): Params {
    SizesFor(SplitsPlain(dataSize, doPlainSplit, isText), UnitFor(dataSize), absoluteMax, minimumChunkSize, isText)
  }

  function Within(least: int, x: int, most: int): int {
    if x > most || least > most then most else if x < least then least else x
  }

  /** The three sizes, in numbers: plain data gets a unit of at least 64 bytes, in steps of 32, that counts at most 2000 times. */
  function SizesOf(dataSize: nat, absoluteMax: int, doPlainSplit: bool, minimumChunkSize: int, isText: bool): Params {
    var plain := (doPlainSplit || isText) && dataSize < 4_194_304;
    var unit := if dataSize <= 128_000 then 64 else 64 + 32 * ((dataSize - 128_000 + 63_999) / 64_000);
    var max := Within(30_720, absoluteMax, if plain then 16 * unit else 4_194_304);
    var min := Within(if plain then 2 * unit else 262_144, minimumChunkSize, max);
    Params(min, Within(min, if plain then 4 * unit else 1_048_576, max), max, isText)
  }

  lemma UnitIs(dataSize: nat)
    ensures UnitFor(dataSize) == if dataSize <= 128_000 then 64 else 64 + 32 * ((dataSize - 128_000 + 63_999) / 64_000)
  {
    UnitIsLeast(dataSize, 64);
    hide UnitFrom;
    var u, k := UnitFor(dataSize), (dataSize - 128_000 + 63_999) / 64_000;
    assert u == 64 + 32 * ((u - 64) / 32);
    if dataSize > 128_000 {
      assert (u - 64) / 32 == k;
    }
  }

  lemma SizesAre(dataSize: nat, absoluteMax: int, doPlainSplit: bool, minimumChunkSize: int, isText: bool)
    ensures ParamsFor(dataSize, absoluteMax, doPlainSplit, minimumChunkSize, isText) == SizesOf(dataSize, absoluteMax, doPlainSplit, minimumChunkSize, isText)
  {
    UnitIs(dataSize);
    hide UnitFor;
  }

  method SplitPiecesRabinKarp(buffer: seq<Byte>, absoluteMax: int, doPlainSplit: bool, minimumChunkSize: int, isText: bool)
    returns (chunks: seq<seq<Byte>>)
    ensures var p := SizesOf(|buffer|, absoluteMax, doPlainSplit, minimumChunkSize, isText); p.avgSize > 0 && IsCutUp(buffer, chunks, p) && chunks == Chunks(buffer, p)
    ensures Concat(chunks) == buffer
    ensures (isText ==> WellFormed(buffer)) ==>
      var p := SizesOf(|buffer|, absoluteMax, doPlainSplit, minimumChunkSize, isText);
      forall i | 0 <= i < |chunks| :: GoodChunk(chunks[i], p) && (i < |chunks| - 1 ==> |chunks[i]| >= p.minSize)
    ensures SplitsPlain(|buffer|, doPlainSplit, isText) ==> |chunks| <= 1000
  {
    var plainSplit := doPlainSplit || isText;
    var chunkUnitPlain := 64;
    if plainSplit {
      if |buffer| >= PLAIN_LIMIT {
        plainSplit := false;
      } else {
        chunkUnitPlain := SelectUnit(|buffer|);
        UnitIsLeast(|buffer|, 64);
      }
    }
    var p := SizesFor(plainSplit, chunkUnitPlain, absoluteMax, minimumChunkSize, isText);
    SizesAreOrdered(plainSplit, chunkUnitPlain, absoluteMax, minimumChunkSize, isText);
    chunks := SplitBuffer(buffer, p);
    SizesAre(|buffer|, absoluteMax, doPlainSplit, minimumChunkSize, isText);
    ChunksAreLossless(0, buffer, p);
    if isText ==> WellFormed(buffer) {
      ChunksAreBounded(0, buffer, p);
    }
    if plainSplit {
      PlainTextHasFewChunks(buffer, absoluteMax, minimumChunkSize, isText);
    }
  }

  // ----- the number of chunks -----

  lemma {:induction false} ManyChunksAreLong(chunks: seq<seq<Byte>>, least: nat)
    requires forall c | c in chunks :: |c| >= least
    ensures |Concat(chunks)| >= |chunks| * least
  {
    if chunks != [] {
      ManyChunksAreLong(chunks[1..], least);
      OneMore(|chunks| - 1, least, |Concat(chunks[1..])|, |chunks[0]|);
    }
  }

  lemma OneMore(count: nat, least: nat, total: nat, more: nat)
    requires total >= count * least && more >= least
    ensures more + total >= (count + 1) * least
  {
  }

  /** Every chunk that is cut off is at least the minimum long, whatever the bytes are. */
  lemma {:induction false} CutChunksAreLong(hash: int, buffer: seq<Byte>, n: nat, p: Params)
    requires n <= |buffer| && Sized(p)
    ensures forall c | c in ScanFrom(hash, buffer, n, p).chunks :: |c| >= p.minSize
  {
    hide RollHash;
    if n > 0 {
      CutChunksAreLong(hash, buffer, n - 1, p);
    }
  }

  /** Below four mebibytes a plain split has at most a thousand chunks, well-formed text or not. */
  lemma PlainTextHasFewChunks(buffer: seq<Byte>, absoluteMax: int, minimumChunkSize: int, isText: bool)
    requires |buffer| < PLAIN_LIMIT
    ensures var p := SizesFor(true, UnitFor(|buffer|), absoluteMax, minimumChunkSize, isText);
            p.avgSize > 0 && |Chunks(buffer, p)| <= 1000
  {
    var unit := UnitFor(|buffer|);
    UnitIsLeast(|buffer|, 64);
    var p := SizesFor(true, unit, absoluteMax, minimumChunkSize, isText);
    SizesAreOrdered(true, unit, absoluteMax, minimumChunkSize, isText);
    assert p.minSize >= 2 * unit;
    var s := ScanFrom(0, buffer, |buffer|, p);
    CutChunksAreLong(0, buffer, |buffer|, p);
    ScanKeepsPrefix(0, buffer, |buffer|, p);
    ManyChunksAreLong(s.chunks, 2 * unit);
    ThousandUnits(|s.chunks|, unit, s.start, |buffer|);
  }

  lemma ThousandUnits(count: nat, unit: nat, cut: nat, dataSize: nat)
    requires count * (2 * unit) <= cut <= dataSize <= 2000 * unit && unit > 0
    ensures count <= 1000 && (cut < dataSize ==> count < 1000)
  {
    if count >= 1000 {
      assert count * (2 * unit) == 1000 * (2 * unit) + (count - 1000) * (2 * unit);
      assert count > 1000 ==> (count - 1000) * (2 * unit) >= 2 * unit;
    }
  }
}
