/** What holds of the chunks of every buffer: nothing is lost, sizes are bounded, characters stay whole, cuts are stable. */
module ChunkGuarantees {

  import opened Utf8
  import opened RabinKarp

  function Concat(chunks: seq<seq<Byte>>): seq<Byte> {
    if chunks == [] then [] else chunks[0] + Concat(chunks[1..])
  }

  lemma {:induction false} ConcatOfAppend(chunks: seq<seq<Byte>>, chunk: seq<Byte>)
    ensures Concat(chunks + [chunk]) == Concat(chunks) + chunk
  {
    if chunks == [] {
      assert chunks + [chunk] == [chunk];
      assert Concat([chunk]) == chunk + [];
    } else {
      assert (chunks + [chunk])[1..] == chunks[1..] + [chunk];
      ConcatOfAppend(chunks[1..], chunk);
    }
  }

  // ----- lossless -----

  lemma StepKeepsPrefix(buffer: seq<Byte>, pos: nat, s: Scan, p: Params)
    requires s.start <= pos < |buffer| && p.avgSize > 0 && Concat(s.chunks) == buffer[..s.start]
    ensures var s' := Step(buffer, pos, s, p); Concat(s'.chunks) == buffer[..s'.start]
  {
    hide RollHash, IsCandidate, IsSafe, Concat;
    ConcatOfAppend(s.chunks, buffer[s.start..pos + 1]);
    assert buffer[..s.start] + buffer[s.start..pos + 1] == buffer[..pos + 1];
  }

  lemma {:induction false} ScanKeepsPrefix(hash: int, buffer: seq<Byte>, n: nat, p: Params)
    requires n <= |buffer| && p.avgSize > 0
    ensures var s := ScanFrom(hash, buffer, n, p); Concat(s.chunks) == buffer[..s.start]
  {
    hide Step;
    if n > 0 {
      ScanKeepsPrefix(hash, buffer, n - 1, p);
      StepKeepsPrefix(buffer, n - 1, ScanFrom(hash, buffer, n - 1, p), p);
    }
  }

  lemma ChunksAreLossless(hash: int, buffer: seq<Byte>, p: Params)
    requires p.avgSize > 0
    ensures Concat(ChunksFrom(hash, buffer, p)) == buffer
  {
    var s := ScanFrom(hash, buffer, |buffer|, p);
    ScanKeepsPrefix(hash, buffer, |buffer|, p);
    if s.start < |buffer| {
      ConcatOfAppend(s.chunks, buffer[s.start..]);
      assert buffer[..s.start] + buffer[s.start..] == buffer;
    } else {
      assert s.chunks + [] == s.chunks && buffer[..s.start] == buffer;
    }
  }

  // ----- sizes -----

  predicate Sized(p: Params) {
    0 < p.minSize <= p.avgSize <= p.maxSize
  }

  /** How far beyond the maximum a chunk may grow: up to the end of the character at which it was reached. */
  function Overrun(p: Params): nat {
    if p.isText then 3 else 0
  }

  /** Text is expected to be well-formed; anything is accepted as binary data. */
  predicate Acceptable(buffer: seq<Byte>, p: Params) {
    p.isText ==> WellFormed(buffer)
  }

  predicate GoodChunk(chunk: seq<Byte>, p: Params) {
    && 0 < |chunk| <= p.maxSize + Overrun(p)
    && (p.isText ==> WellFormed(chunk))
  }

  /** Beyond the maximum size, text is only read on for continuation bytes; binary data is not read on at all. */
  predicate OverrunIsInsideCharacter(buffer: seq<Byte>, n: nat, start: nat, p: Params) {
    if p.isText then
      forall k | 0 <= start + p.maxSize <= k <= n && k < |buffer| :: IsContinuation(buffer[k])
    else
      n - start < p.maxSize
  }

  predicate AtCharacter(buffer: seq<Byte>, i: nat, p: Params) {
    p.isText && i < |buffer| ==> !IsContinuation(buffer[i])
  }

  ghost predicate ScanInvariant(buffer: seq<Byte>, n: nat, s: Scan, p: Params)
    requires Sized(p)
  {
    && s.start <= n <= |buffer|
    && AtCharacter(buffer, s.start, p)
    && OverrunIsInsideCharacter(buffer, n, s.start, p)
    && forall c | c in s.chunks :: GoodChunk(c, p) && |c| >= p.minSize
  }

  lemma OverrunIsShort(buffer: seq<Byte>, n: nat, start: nat, p: Params)
    requires Sized(p) && Acceptable(buffer, p) && start <= n <= |buffer| && OverrunIsInsideCharacter(buffer, n, start, p)
    ensures n - start <= p.maxSize + Overrun(p)
    ensures n < |buffer| ==> n + 1 - start <= p.maxSize + Overrun(p)
  {
    if p.isText && n + 1 - start > p.maxSize + 3 && start + p.maxSize + 3 < |buffer| {
      NoFourContinuations(buffer, start + p.maxSize);
    }
  }

  lemma StepKeepsInvariant(buffer: seq<Byte>, pos: nat, s: Scan, p: Params)
    requires Sized(p) && Acceptable(buffer, p) && pos < |buffer| && ScanInvariant(buffer, pos, s, p)
    ensures ScanInvariant(buffer, pos + 1, Step(buffer, pos, s, p), p)
  {
    var s' := Step(buffer, pos, s, p);
    if s'.start == pos + 1 {
      OverrunIsShort(buffer, pos, s.start, p);
      if p.isText {
        CutOut(buffer, s.start, pos + 1);
      }
    }
  }

  lemma {:induction false} ScanInvariantHolds(hash: int, buffer: seq<Byte>, n: nat, p: Params)
    requires n <= |buffer| && Sized(p) && Acceptable(buffer, p)
    ensures ScanInvariant(buffer, n, ScanFrom(hash, buffer, n, p), p)
  {
    if n > 0 {
      ScanInvariantHolds(hash, buffer, n - 1, p);
      StepKeepsInvariant(buffer, n - 1, ScanFrom(hash, buffer, n - 1, p), p);
    } else if buffer != [] && p.isText {
      assert !IsContinuation(buffer[0]);
    }
  }

  /** Every chunk is well-formed and at most the maximum, plus three bytes for text; every chunk but the last has the minimum. */
  lemma ChunksAreBounded(hash: int, buffer: seq<Byte>, p: Params)
    requires Sized(p) && Acceptable(buffer, p)
    ensures var chunks := ChunksFrom(hash, buffer, p);
            forall i | 0 <= i < |chunks| :: GoodChunk(chunks[i], p) && (i < |chunks| - 1 ==> |chunks[i]| >= p.minSize)
  {
    var n := |buffer|;
    var s := ScanFrom(hash, buffer, n, p);
    ScanInvariantHolds(hash, buffer, n, p);
    if s.start < n {
      OverrunIsShort(buffer, n, s.start, p);
      if p.isText {
        CutOut(buffer, s.start, n);
        assert buffer[s.start..n] == buffer[s.start..];
      }
    }
  }

  function DecodeAll(chunks: seq<seq<Byte>>): seq<int>
    requires forall c | c in chunks :: WellFormed(c)
  {
    if chunks == [] then [] else Decode(chunks[0]) + DecodeAll(chunks[1..])
  }

  /** The decoded chunks of a text therefore join to the decoded text. */
  lemma TextChunksDecodeToText(buffer: seq<Byte>, p: Params)
    requires Sized(p) && p.isText && WellFormed(buffer)
    ensures forall c | c in Chunks(buffer, p) :: WellFormed(c)
    ensures DecodeAll(Chunks(buffer, p)) == Decode(buffer)
  {
    ChunksAreBounded(0, buffer, p);
    ChunksAreLossless(0, buffer, p);
    DecodeOfConcat(Chunks(buffer, p));
  }

  lemma {:induction false} DecodeOfConcat(chunks: seq<seq<Byte>>)
    requires forall c | c in chunks :: WellFormed(c)
    ensures WellFormed(Concat(chunks)) && Decode(Concat(chunks)) == DecodeAll(chunks)
  {
    if chunks != [] {
      DecodeOfConcat(chunks[1..]);
      DecodeOfPair(chunks[0], Concat(chunks[1..]));
    }
  }

  lemma {:induction false} DecodeOfPair(a: seq<Byte>, b: seq<Byte>)
    requires WellFormed(a) && WellFormed(b)
    ensures WellFormed(a + b) && Decode(a + b) == Decode(a) + Decode(b)
  {
    if a == [] {
      assert a + b == b;
    } else {
      DecodeOfPair(a[CharLength(a[0])..], b);
      CharInFront(a, b);
    }
  }

  lemma CharInFront(a: seq<Byte>, b: seq<Byte>)
    requires a != [] && StartsWithChar(a) && CharLength(a[0]) <= |a| && WellFormed(a) && WellFormed(b)
    requires var rest := a[CharLength(a[0])..]; WellFormed(rest + b) && Decode(rest + b) == Decode(rest) + Decode(b)
    ensures WellFormed(a + b) && Decode(a + b) == Decode(a) + Decode(b)
  {
    hide StartsWithChar, FirstCodePoint, CharLength;
    var n := CharLength(a[0]);
    FirstCharOfConcat(a, b);
    DecodeFirst(a);
    DropFront(a, b, n);
    WellFormedWithFirst(a + b);
    DecodeFirst(a + b);
    Reassociate([FirstCodePoint(a)], Decode(a[n..]), Decode(b));
  }

  lemma DropFront(a: seq<Byte>, b: seq<Byte>, n: nat)
    requires n <= |a|
    ensures (a + b)[n..] == a[n..] + b && (a != [] ==> (a + b)[0] == a[0])
  {
  }

  lemma Reassociate<T>(a: seq<T>, b: seq<T>, c: seq<T>)
    ensures a + (b + c) == (a + b) + c
  {
  }

  lemma WellFormedWithFirst(s: seq<Byte>)
    requires s != [] && StartsWithChar(s) && CharLength(s[0]) <= |s|
    ensures WellFormed(s[CharLength(s[0])..]) ==> WellFormed(s)
  {
  }

  lemma FirstCharOfConcat(a: seq<Byte>, b: seq<Byte>)
    requires StartsWithChar(a)
    ensures StartsWithChar(a + b) && FirstCodePoint(a + b) == FirstCodePoint(a)
  {
  }

  // ----- stability -----

  lemma RollsAlike(a: seq<Byte>, b: seq<Byte>, pos: nat, start: nat, hash: int)
    requires start <= pos < |a| && pos < |b| && forall k | 0 <= k <= pos :: a[k] == b[k]
    ensures RollHash(a, pos, start, hash) == RollHash(b, pos, start, hash)
  {
    hide ToInt32, Imul;
  }

  predicate AgreeOn(a: seq<Byte>, b: seq<Byte>, n: nat) {
    n <= |a| && n <= |b| && a[..n] == b[..n]
  }

  /**
   * Buffers that agree on their first `agreed` bytes are scanned alike up to one byte earlier: the cut behind a
   * byte also looks at the byte after it.
   */
  lemma {:induction false} CutsArePrefixStable(hash: int, a: seq<Byte>, b: seq<Byte>, agreed: nat, n: nat, p: Params)
    requires AgreeOn(a, b, agreed) && n < agreed && p.avgSize > 0
    ensures ScanFrom(hash, a, n, p) == ScanFrom(hash, b, n, p)
  {
    hide RollHash;
    if n > 0 {
      CutsArePrefixStable(hash, a, b, agreed, n - 1, p);
      var s := ScanFrom(hash, a, n - 1, p);
      assert forall k | 0 <= k <= n :: a[k] == a[..agreed][k] == b[k];
      RollsAlike(a, b, n - 1, s.start, s.hash);
      assert a[s.start..n] == b[s.start..n];
    }
  }

  /** The chunks that are cut off within the first bytes of a buffer. */
  function CutOff(buffer: seq<Byte>, n: nat, p: Params): seq<seq<Byte>>
    requires n <= |buffer| && p.avgSize > 0
  {
    ScanFrom(0, buffer, n, p).chunks
  }

  /** In the buffers' own terms: every chunk that ends before the last agreed byte is a chunk of both. */
  lemma CommonPrefixGivesCommonChunks(a: seq<Byte>, b: seq<Byte>, agreed: nat, p: Params)
    requires AgreeOn(a, b, agreed) && agreed > 0 && p.avgSize > 0
    ensures CutOff(a, agreed - 1, p) == CutOff(b, agreed - 1, p)
    ensures CutOff(a, agreed - 1, p) <= Chunks(a, p) && CutOff(b, agreed - 1, p) <= Chunks(b, p)
  {
    assert CutOff(a, agreed - 1, p) == CutOff(b, agreed - 1, p) by {
      CutsArePrefixStable(0, a, b, agreed, agreed - 1, p);
    }
    hide CutOff, Chunks;
    CutOffStays(a, agreed - 1, p);
    CutOffStays(b, agreed - 1, p);
  }

  lemma CutOffStays(buffer: seq<Byte>, n: nat, p: Params)
    requires n <= |buffer| && p.avgSize > 0
    ensures CutOff(buffer, n, p) <= Chunks(buffer, p)
  {
    ChunksOnlyGrow(0, buffer, n, |buffer|, p);
  }

  lemma {:induction false} ChunksOnlyGrow(hash: int, buffer: seq<Byte>, n: nat, m: nat, p: Params)
    requires n <= m <= |buffer| && p.avgSize > 0
    ensures ScanFrom(hash, buffer, n, p).chunks <= ScanFrom(hash, buffer, m, p).chunks
  {
    if n < m {
      ChunksOnlyGrow(hash, buffer, n, m - 1, p);
    }
  }

  /** What follows a cut is the chunking of the remaining bytes, begun with the hash carried over the cut. */
  lemma WhatFollowsACut(hash: int, buffer: seq<Byte>, cut: nat, p: Params)
    requires cut <= |buffer| && p.avgSize > 0 && ScanFrom(hash, buffer, cut, p).start == cut
    ensures var s := ScanFrom(hash, buffer, cut, p);
            ChunksFrom(hash, buffer, p) == s.chunks + ChunksFrom(s.hash, buffer[cut..], p)
  {
    hide RollHash;
    var s := ScanFrom(hash, buffer, cut, p);
    var rest := buffer[cut..];
    ScanBehindCut(hash, buffer, cut, |rest|, p);
    var r := ScanFrom(s.hash, rest, |rest|, p);
    assert buffer[cut + r.start..] == rest[r.start..];
  }

  /** A scan of the bytes behind a cut, in the whole buffer's terms. */
  function Shifted(r: Scan, cut: nat, chunks: seq<seq<Byte>>): Scan {
    Scan(r.hash, cut + r.start, chunks + r.chunks)
  }

  lemma {:induction false} ScanBehindCut(hash: int, buffer: seq<Byte>, cut: nat, m: nat, p: Params)
    requires cut + m <= |buffer| && p.avgSize > 0 && ScanFrom(hash, buffer, cut, p).start == cut
    ensures var s := ScanFrom(hash, buffer, cut, p);
            ScanFrom(hash, buffer, cut + m, p) == Shifted(ScanFrom(s.hash, buffer[cut..], m, p), cut, s.chunks)
  {
    hide RollHash, IsCandidate;
    if m > 0 {
      ScanBehindCut(hash, buffer, cut, m - 1, p);
      var s := ScanFrom(hash, buffer, cut, p);
      StepBehindCut(buffer, cut, m - 1, ScanFrom(s.hash, buffer[cut..], m - 1, p), s.chunks, p);
    }
  }

  lemma StepBehindCut(buffer: seq<Byte>, cut: nat, pos: nat, r: Scan, chunks: seq<seq<Byte>>, p: Params)
    requires r.start <= pos && cut + pos < |buffer| && p.avgSize > 0
    ensures Step(buffer, cut + pos, Shifted(r, cut, chunks), p) == Shifted(Step(buffer[cut..], pos, r, p), cut, chunks)
  {
    var rest := buffer[cut..];
    RollBehindCut(buffer, cut, pos, r);
    assert IsSafe(rest, pos, p) == IsSafe(buffer, cut + pos, p);
    assert rest[r.start..pos + 1] == buffer[cut + r.start..cut + pos + 1];
    assert chunks + (r.chunks + [rest[r.start..pos + 1]]) == chunks + r.chunks + [rest[r.start..pos + 1]];
  }

  lemma RollBehindCut(buffer: seq<Byte>, cut: nat, pos: nat, r: Scan)
    requires r.start <= pos && cut + pos < |buffer|
    ensures RollHash(buffer[cut..], pos, r.start, r.hash) == RollHash(buffer, cut + pos, cut + r.start, r.hash)
  {
    var rest := buffer[cut..];
    assert rest[pos] == buffer[cut + pos];
    assert pos >= r.start + WINDOW ==> rest[pos - WINDOW] == buffer[cut + pos - WINDOW];
  }

  // ----- how far the cuts are defined by content -----

  /**
   * Inside a chunk the hash is the hash of its window alone exactly if the chunk was begun with a zero hash, so
   * exactly then its cuts are decided by the bytes in the window.
   */
  lemma WindowDecidesIff(hash: int, buffer: seq<Byte>, n: nat, p: Params)
    requires n <= |buffer| && p.avgSize > 0
    ensures var s := ScanFrom(hash, buffer, n, p);
            (Word(s.hash) == Word(Poly(buffer, WindowStart(s.start, n), n))
             <==> Word(ScanFrom(hash, buffer, s.start, p).hash) == 0)
  {
    hide Word, Step;
    var s := ScanFrom(hash, buffer, n, p);
    var carried, poly := ScanFrom(hash, buffer, s.start, p).hash, Poly(buffer, WindowStart(s.start, n), n);
    HashIsExact(hash, buffer, n, p);
    CarryVanishesIff(carried, n - s.start);
    SumVanishesIff(Carry(carried, n - s.start), poly);
  }

  lemma SumVanishesIff(residue: int, poly: int)
    ensures Word(residue + poly) == Word(poly) <==> Word(residue) == 0
  {
    if Word(residue + poly) == Word(poly) {
      WordOfSum(residue + poly, poly, poly, poly);
    } else if Word(residue) == 0 {
      WordOfSum(residue, 0, poly, poly);
    }
  }

  /** A chunk that follows a cut at the boundary pattern never satisfies that: the carried hash is 1 modulo the average. */
  lemma NoWindowHashBehindPatternCut(hash: int, buffer: seq<Byte>, n: nat, p: Params)
    requires n <= |buffer| && p.avgSize > 0
    requires var start := ScanFrom(hash, buffer, n, p).start;
             Word(ScanFrom(hash, buffer, start, p).hash) % p.avgSize == 1
    ensures var s := ScanFrom(hash, buffer, n, p);
            Word(s.hash) != Word(Poly(buffer, WindowStart(s.start, n), n))
  {
    hide Word, ScanFrom, Poly;
    var start := ScanFrom(hash, buffer, n, p).start;
    OneIsNotZero(Word(ScanFrom(hash, buffer, start, p).hash), p.avgSize);
    WindowDecidesIff(hash, buffer, n, p);
  }

  lemma OneIsNotZero(x: int, n: int)
    requires n > 0 && x % n == 1
    ensures x != 0
  {
  }

  /** 127 zero bytes and a one, cut at the boundary pattern; then a zero byte, whose hash still contains the one. */
  lemma CarriedHashDecides()
    ensures var buffer, p := seq(127, _ => 0 as Byte) + [1, 0], Params(128, 256, 1024, false);
            && ScanFrom(0, buffer, 128, p) == Scan(1, 128, [buffer[..128]])
            && ScanFrom(0, buffer, 129, p).hash == 31 && Poly(buffer, WindowStart(128, 129), 129) == 0
  {
    var buffer, p := seq(127, _ => 0 as Byte) + [1, 0], Params(128, 256, 1024, false);
    ScanOfZeros(buffer, 127, p);
    assert RollHash(buffer, 127, 0, 0) == 1 by {
      ZeroTimesAnything();
    }
    assert buffer[0..128] == buffer[..128];
    assert RollHash(buffer, 128, 128, 1) == 31;
  }

  lemma {:induction false} ScanOfZeros(buffer: seq<Byte>, n: nat, p: Params)
    requires n <= |buffer| && n < p.minSize <= p.maxSize && p.avgSize > 0 && forall i | 0 <= i < n :: buffer[i] == 0
    ensures ScanFrom(0, buffer, n, p) == Scan(0, 0, [])
  {
    if n > 0 {
      ScanOfZeros(buffer, n - 1, p);
      ZeroTimesAnything();
    }
  }

  lemma ZeroTimesAnything()
    ensures Imul(0, PrimePower(WINDOW - 1)) == 0 && Imul(0, PRIME) == 0
  {
    hide PrimePower;
  }
}
