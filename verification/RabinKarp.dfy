/** The Rabin-Karp chunker: a 32-bit rolling hash, the cut decision, and the sizes it is run with. */
module RabinKarp {

  import opened Utf8

  // ----- 32-bit arithmetic -----

  const TWO_32 := 0x1_0000_0000

  /** `x >>> 0` */
  function Word(x: int): (w: int)
    ensures 0 <= w < TWO_32
  {
    x % TWO_32
  }

  /** `x | 0` */
  function ToInt32(x: int): (r: int)
    ensures -0x8000_0000 <= r < 0x8000_0000 && Word(r) == Word(x)
  {
    if Word(x) < 0x8000_0000 then Word(x) else Word(x) - TWO_32
  }

  /** `Math.imul(a, b)` */
  function Imul(a: int, b: int): int {
    ToInt32(a * b)
  }

  lemma WordOfSum(a: int, b: int, c: int, d: int)
    requires Word(a) == Word(b) && Word(c) == Word(d)
    ensures Word(a + c) == Word(b + d) && Word(a - c) == Word(b - d)
  {
    var j, k := a / TWO_32 - b / TWO_32, c / TWO_32 - d / TWO_32;
    assert a == b + j * TWO_32 && c == d + k * TWO_32;
    WordOfMultiple(b + d, j + k);
    WordOfMultiple(b - d, j - k);
  }

  lemma SameWord(x: int, a: int, b: int, c: int)
    requires Word(x) == Word(a + c) && a == b
    ensures Word(x) == Word(b + c)
  {
  }

  lemma WordOfProduct(a: int, b: int, c: int)
    requires Word(a) == Word(b)
    ensures Word(a * c) == Word(b * c)
  {
    var k := a / TWO_32 - b / TWO_32;
    assert a == b + k * TWO_32;
    assert a * c == b * c + (k * c) * TWO_32;
    WordOfMultiple(b * c, k * c);
  }

  lemma WordOfMultiple(x: int, k: int)
    ensures Word(x + k * TWO_32) == Word(x)
  {
  }

  // ----- the rolling hash -----

  const WINDOW := 48
  const PRIME := 31

  datatype Params = Params(minSize: int, avgSize: int, maxSize: int, isText: bool)

  /** `P_pow_w` after `n` turns of its loop. */
  function PrimePower(n: nat): int {
    if n == 0 then 1 else Imul(PrimePower(n - 1), PRIME)
  }

  method ComputePowW() returns (powW: int)
    ensures powW == PrimePower(WINDOW - 1)
  {
    powW := 1;
    for i := 0 to WINDOW - 1
      invariant powW == PrimePower(i)
    {
      powW := Imul(powW, PRIME);
    }
  }

  function RollHash(buffer: seq<Byte>, pos: nat, start: nat, hash: int): int
    requires start <= pos < |buffer|
  {
    if pos >= start + WINDOW then
      ToInt32(Imul(ToInt32(hash - Imul(buffer[pos - WINDOW], PrimePower(WINDOW - 1))), PRIME) + buffer[pos])
    else
      ToInt32(Imul(hash, PRIME) + buffer[pos])
  }

  predicate IsCandidate(size: int, hash: int, p: Params)
    requires p.avgSize > 0
  {
    (size >= p.minSize && Word(hash) % p.avgSize == 1) || size >= p.maxSize
  }

  predicate IsSafe(buffer: seq<Byte>, pos: nat, p: Params) {
    !(p.isText && pos + 1 < |buffer| && IsContinuation(buffer[pos + 1]))
  }

  datatype Scan = Scan(hash: int, start: nat, chunks: seq<seq<Byte>>)

  function Step(buffer: seq<Byte>, pos: nat, s: Scan, p: Params): (s': Scan)
    requires s.start <= pos < |buffer| && p.avgSize > 0
    ensures s'.start <= pos + 1
  {
    var hash := RollHash(buffer, pos, s.start, s.hash);
    if IsCandidate(pos - s.start + 1, hash, p) && IsSafe(buffer, pos, p) then
      Scan(hash, pos + 1, s.chunks + [buffer[s.start..pos + 1]])
    else
      Scan(hash, s.start, s.chunks)
  }

  /** The scan of the first `n` bytes, begun with a given hash. */
  function ScanFrom(hash: int, buffer: seq<Byte>, n: nat, p: Params): (s: Scan)
    requires n <= |buffer| && p.avgSize > 0
    ensures s.start <= n
  {
    if n == 0 then Scan(hash, 0, []) else Step(buffer, n - 1, ScanFrom(hash, buffer, n - 1, p), p)
  }

  function Finish(buffer: seq<Byte>, s: Scan): seq<seq<Byte>>
    requires s.start <= |buffer|
  {
    s.chunks + if s.start < |buffer| then [buffer[s.start..]] else []
  }

  function ChunksFrom(hash: int, buffer: seq<Byte>, p: Params): seq<seq<Byte>>
    requires p.avgSize > 0
  {
    Finish(buffer, ScanFrom(hash, buffer, |buffer|, p))
  }

  function Chunks(buffer: seq<Byte>, p: Params): seq<seq<Byte>>
    requires p.avgSize > 0
  {
    ChunksFrom(0, buffer, p)
  }

  method Roll(buffer: seq<Byte>, pos: nat, start: nat, hash: int, powW: int) returns (rolled: int)
    requires start <= pos < |buffer| && powW == PrimePower(WINDOW - 1)
    ensures rolled == RollHash(buffer, pos, start, hash)
  {
    hide ToInt32, Imul, PrimePower;
    var byte := buffer[pos];
    if pos >= start + WINDOW {
      var oldByteTerm := Imul(buffer[pos - WINDOW], powW);
      rolled := ToInt32(hash - oldByteTerm);
      rolled := Imul(rolled, PRIME);
      rolled := ToInt32(rolled + byte);
    } else {
      rolled := Imul(hash, PRIME);
      rolled := ToInt32(rolled + byte);
    }
  }

  method JudgeBoundary(buffer: seq<Byte>, pos: nat, start: nat, hash: int, p: Params) returns (cut: bool)
    requires start <= pos < |buffer| && p.avgSize > 0
    ensures cut == (IsCandidate(pos - start + 1, hash, p) && IsSafe(buffer, pos, p))
  {
    var currentChunkSize := pos - start + 1;
    var isBoundaryCandidate := false;
    if currentChunkSize >= p.minSize {
      if Word(hash) % p.avgSize == 1 {
        isBoundaryCandidate := true;
      }
    }
    if currentChunkSize >= p.maxSize {
      isBoundaryCandidate := true;
    }
    var isSafeBoundary := true;
    if p.isText {
      if pos + 1 < |buffer| && IsContinuation(buffer[pos + 1]) {
        isSafeBoundary := false;
      }
    }
    return isBoundaryCandidate && isSafeBoundary;
  }

  // ----- closed form -----

  function Pow31(n: nat): int {
    if n == 0 then 1 else 31 * Pow31(n - 1)
  }

  /** A value after `n` turns of multiplying by 31. */
  function Carry(value: int, n: nat): int {
    if n == 0 then value else 31 * Carry(value, n - 1)
  }

  lemma {:induction false} CarryIsProduct(value: int, n: nat)
    ensures Carry(value, n) == value * Pow31(n)
  {
    if n > 0 {
      CarryIsProduct(value, n - 1);
      var q := Pow31(n - 1);
      assert 31 * (value * q) == value * (31 * q);
    }
  }

  /** The polynomial hash of `buffer[from..to]`: byte `k` weighs 31 to the power `to - 1 - k`. */
  function Poly(buffer: seq<Byte>, from: nat, to: nat): int
    requires from <= to <= |buffer|
  {
    if from == to then 0 else 31 * Poly(buffer, from, to - 1) + buffer[to - 1]
  }

  lemma {:induction false} PolyDropsOldest(buffer: seq<Byte>, from: nat, to: nat)
    requires from < to <= |buffer|
    ensures Poly(buffer, from, to) == Carry(buffer[from], to - 1 - from) + Poly(buffer, from + 1, to)
  {
    if to > from + 1 {
      PolyDropsOldest(buffer, from, to - 1);
    }
  }

  lemma {:induction false} PrimePowerIsPow31(n: nat)
    ensures Word(PrimePower(n)) == Word(Pow31(n))
  {
    if n > 0 {
      PrimePowerIsPow31(n - 1);
      WordOfProduct(PrimePower(n - 1), Pow31(n - 1), 31);
    }
  }

  lemma OldestByteTerm(byte: Byte)
    ensures Word(Imul(byte, PrimePower(WINDOW - 1))) == Word(Carry(byte, WINDOW - 1))
  {
    var power, exact: int := PrimePower(WINDOW - 1), Pow31(WINDOW - 1);
    PrimePowerIsPow31(WINDOW - 1);
    WordOfProduct(power, exact, byte);
    assert power * byte == byte * power && exact * byte == byte * exact;
    CarryIsProduct(byte, WINDOW - 1);
  }

  /** The first byte that is still in the hash window of a chunk from `start`, `n` bytes having been read. */
  function WindowStart(start: nat, n: nat): nat {
    if n > start + WINDOW then n - WINDOW else start
  }

  /** The value a hash has, up to its word, after `n` bytes in a chunk from `start` that was begun with `carried`. */
  function ExactHash(buffer: seq<Byte>, start: nat, n: nat, carried: int): int
    requires start <= n <= |buffer|
  {
    Carry(carried, n - start) + Poly(buffer, WindowStart(start, n), n)
  }

  lemma {:induction false} HashIsExact(hash: int, buffer: seq<Byte>, n: nat, p: Params)
    requires n <= |buffer| && p.avgSize > 0
    ensures var s := ScanFrom(hash, buffer, n, p);
            Word(s.hash) == Word(ExactHash(buffer, s.start, n, ScanFrom(hash, buffer, s.start, p).hash))
  {
    hide Step, Word, Imul, ToInt32, IsCandidate, IsSafe;
    var s := ScanFrom(hash, buffer, n, p);
    if s.start < n {
      HashIsExact(hash, buffer, n - 1, p);
      InsideChunk(hash, buffer, n, p);
      RollKeepsExact(buffer, n - 1, s.start, ScanFrom(hash, buffer, s.start, p).hash, ScanFrom(hash, buffer, n - 1, p).hash);
    }
  }

  /** Inside a chunk only the hash moves. */
  lemma InsideChunk(hash: int, buffer: seq<Byte>, n: nat, p: Params)
    requires 0 < n <= |buffer| && p.avgSize > 0 && ScanFrom(hash, buffer, n, p).start < n
    ensures var s := ScanFrom(hash, buffer, n - 1, p);
            ScanFrom(hash, buffer, n, p) == s.(hash := RollHash(buffer, n - 1, s.start, s.hash))
  {
  }

  lemma RollKeepsExact(buffer: seq<Byte>, pos: nat, start: nat, carried: int, hash: int)
    requires start <= pos < |buffer|
    requires Word(hash) == Word(ExactHash(buffer, start, pos, carried))
    ensures Word(RollHash(buffer, pos, start, hash)) == Word(ExactHash(buffer, start, pos + 1, carried))
  {
    hide Word, Imul;
    var w := WindowStart(start, pos);
    var residue, poly := Carry(carried, pos - start), Poly(buffer, w, pos);
    if pos >= start + WINDOW {
      var oldTerm := Imul(buffer[w], PrimePower(WINDOW - 1));
      OldestByteTerm(buffer[w]);
      PolyDropsOldest(buffer, w, pos);
      WordOfSum(hash, residue + poly, oldTerm, Carry(buffer[w], WINDOW - 1));
      HornerStep(ToInt32(hash - oldTerm), residue + Poly(buffer, w + 1, pos), buffer[pos]);
    } else {
      HornerStep(hash, residue + poly, buffer[pos]);
    }
  }

  lemma HornerStep(hash: int, value: int, byte: Byte)
    requires Word(hash) == Word(value)
    ensures Word(ToInt32(Imul(hash, PRIME) + byte)) == Word(31 * value + byte)
  {
    WordOfProduct(hash, value, PRIME);
    WordOfSum(Imul(hash, PRIME), 31 * value, byte, byte);
  }

  /** The polynomial hash of the window, plus the carried hash multiplied along. */
  predicate ClosedForm(hash: int, buffer: seq<Byte>, start: nat, n: nat, carried: int)
    requires start <= n <= |buffer|
  {
    Word(hash) == Word(carried * Pow31(n - start) + Poly(buffer, WindowStart(start, n), n))
  }

  lemma ExactIsClosedForm(hash: int, buffer: seq<Byte>, start: nat, n: nat, carried: int)
    requires start <= n <= |buffer| && Word(hash) == Word(ExactHash(buffer, start, n, carried))
    ensures ClosedForm(hash, buffer, start, n, carried)
  {
    CarryIsProduct(carried, n - start);
    SameWord(hash, Carry(carried, n - start), carried * Pow31(n - start), Poly(buffer, WindowStart(start, n), n));
  }

  /** At every position the hash has its closed form; starting a chunk carries the hash over instead of resetting it. */
  lemma HashHasClosedForm(hash: int, buffer: seq<Byte>, n: nat, p: Params)
    requires n <= |buffer| && p.avgSize > 0
    ensures var s := ScanFrom(hash, buffer, n, p);
            ClosedForm(s.hash, buffer, s.start, n, ScanFrom(hash, buffer, s.start, p).hash)
  {
    HashIsExact(hash, buffer, n, p);
    var s := ScanFrom(hash, buffer, n, p);
    ExactIsClosedForm(s.hash, buffer, s.start, n, ScanFrom(hash, buffer, s.start, p).hash);
  }

  /** A carried hash only disappears from the hash if it is a multiple of 2 to the 32: 31 has an inverse. */
  lemma {:induction false} CarryVanishesIff(value: int, n: nat)
    ensures Word(Carry(value, n)) == 0 <==> Word(value) == 0
  {
    if n > 0 {
      CarryVanishesIff(value, n - 1);
      TimesPrimeVanishesIff(Carry(value, n - 1));
    }
  }

  const PRIME_INVERSE := 0xBDEF7BDF

  lemma TimesPrimeVanishesIff(x: int)
    ensures Word(31 * x) == 0 <==> Word(x) == 0
  {
    assert 31 * PRIME_INVERSE == 23 * TWO_32 + 1;
    if Word(31 * x) == 0 {
      var k := 31 * x / TWO_32;
      assert PRIME_INVERSE * (31 * x) == PRIME_INVERSE * (k * TWO_32);
      assert x == 0 + (PRIME_INVERSE * k - 23 * x) * TWO_32;
      WordOfMultiple(0, PRIME_INVERSE * k - 23 * x);
    } else if Word(x) == 0 {
      var k := x / TWO_32;
      WordOfMultiple(0, 31 * k);
    }
  }

  // ----- where the chunks end -----

  /**
   * The hash of a chunk from `start` after `n` bytes, which began with `carried`: the bytes of its last 48 weigh
   * powers of 31, the carried hash is multiplied along, and all of it is reduced to 32 bits.
   */
  function HashAt(buffer: seq<Byte>, start: nat, n: nat, carried: int): int
    requires start <= n <= |buffer|
  {
    (carried * Pow31(n - start) + Poly(buffer, if n > start + 48 then n - 48 else start, n)) % 0x1_0000_0000
  }

  /** A chunk may end here: by its content or by its size, and not in front of a continuation byte of a text. */
  predicate MayEnd(buffer: seq<Byte>, start: nat, end: nat, carried: int, p: Params)
    requires start < end <= |buffer| && p.avgSize > 0
  {
    && ((end - start >= p.minSize && HashAt(buffer, start, end, carried) % p.avgSize == 1) || end - start >= p.maxSize)
    && !(p.isText && end < |buffer| && 0x80 <= buffer[end] < 0xC0)
  }

  function StartOf(chunks: seq<seq<Byte>>, i: nat): nat
    requires i <= |chunks|
  {
    if i == 0 then 0 else StartOf(chunks, i - 1) + |chunks[i - 1]|
  }

  /** The hash that the chunk with this number begins with. */
  function CarriedTo(buffer: seq<Byte>, chunks: seq<seq<Byte>>, i: nat): int
    requires i <= |chunks| && StartOf(chunks, i) <= |buffer|
  {
    if i == 0 then 0 else HashAt(buffer, StartOf(chunks, i - 1), StartOf(chunks, i), CarriedTo(buffer, chunks, i - 1))
  }

  /** A chunk ends at the first position at which it may, or where the buffer ends. */
  ghost predicate EndsWhereItMay(buffer: seq<Byte>, chunks: seq<seq<Byte>>, i: nat, p: Params)
    requires i < |chunks| && p.avgSize > 0
  {
    var start, end := StartOf(chunks, i), StartOf(chunks, i + 1);
    && start < end <= |buffer| && chunks[i] == buffer[start..end]
    && (forall e | start < e < end :: !MayEnd(buffer, start, e, CarriedTo(buffer, chunks, i), p))
    && (end < |buffer| ==> MayEnd(buffer, start, end, CarriedTo(buffer, chunks, i), p))
  }

  ghost predicate IsCutUp(buffer: seq<Byte>, chunks: seq<seq<Byte>>, p: Params)
    requires p.avgSize > 0
  {
    StartOf(chunks, |chunks|) == |buffer| && forall i | 0 <= i < |chunks| :: EndsWhereItMay(buffer, chunks, i, p)
  }

  /** There is only one way. */
  lemma CutsAreUnique(buffer: seq<Byte>, chunks: seq<seq<Byte>>, chunks': seq<seq<Byte>>, p: Params)
    requires p.avgSize > 0 && IsCutUp(buffer, chunks, p) && IsCutUp(buffer, chunks', p)
    ensures chunks == chunks'
  {
    var n := if |chunks| < |chunks'| then |chunks| else |chunks'|;
    SameCuts(buffer, chunks, chunks', n, p);
    assert |chunks| > n ==> EndsWhereItMay(buffer, chunks, n, p);
    assert |chunks'| > n ==> EndsWhereItMay(buffer, chunks', n, p);
    StartsAscend(chunks, n);
    StartsAscend(chunks', n);
    assert chunks == chunks[..n] && chunks' == chunks'[..n];
  }

  lemma {:induction false} StartsAscend(chunks: seq<seq<Byte>>, i: nat)
    requires i <= |chunks|
    ensures StartOf(chunks, i) <= StartOf(chunks, |chunks|)
    decreases |chunks| - i
  {
    if i < |chunks| {
      StartsAscend(chunks, i + 1);
    }
  }

  lemma {:induction false} SameCuts(buffer: seq<Byte>, chunks: seq<seq<Byte>>, chunks': seq<seq<Byte>>, n: nat, p: Params)
    requires p.avgSize > 0 && IsCutUp(buffer, chunks, p) && IsCutUp(buffer, chunks', p) && n <= |chunks| && n <= |chunks'|
    ensures chunks[..n] == chunks'[..n] && StartOf(chunks, n) == StartOf(chunks', n) <= |buffer|
    ensures CarriedTo(buffer, chunks, n) == CarriedTo(buffer, chunks', n)
  {
    if n > 0 {
      hide HashAt, MayEnd;
      SameCuts(buffer, chunks, chunks', n - 1, p);
      assert EndsWhereItMay(buffer, chunks, n - 1, p) && EndsWhereItMay(buffer, chunks', n - 1, p);
      assert StartOf(chunks, n) == StartOf(chunks', n);
      assert chunks[..n] == chunks[..n - 1] + [chunks[n - 1]];
      assert chunks'[..n] == chunks'[..n - 1] + [chunks'[n - 1]];
    }
  }

  lemma HashAtIsWord(buffer: seq<Byte>, start: nat, n: nat, carried: int)
    requires start <= n <= |buffer|
    ensures HashAt(buffer, start, n, carried) == Word(carried * Pow31(n - start) + Poly(buffer, WindowStart(start, n), n))
  {
  }

  lemma RolledIsHashAt(buffer: seq<Byte>, pos: nat, start: nat, carriedHash: int, hash: int, carried: int)
    requires start <= pos < |buffer| && Word(carriedHash) == Word(carried)
    requires Word(hash) == Word(ExactHash(buffer, start, pos, carriedHash))
    ensures Word(RollHash(buffer, pos, start, hash)) == HashAt(buffer, start, pos + 1, carried)
  {
    hide HashAt, RollHash, Word, ExactHash, Pow31, Poly;
    HashAtIsWord(buffer, start, pos + 1, carried);
    RollKeepsExact(buffer, pos, start, carriedHash, hash);
    var n := pos + 1;
    ExactIsClosedForm(RollHash(buffer, pos, start, hash), buffer, start, n, carriedHash);
    WordOfProduct(carriedHash, carried, Pow31(n - start));
    WordOfSum(carriedHash * Pow31(n - start), carried * Pow31(n - start), Poly(buffer, WindowStart(start, n), n), Poly(buffer, WindowStart(start, n), n));
  }

  /** What the next byte makes of the hash, and what is decided behind it. */
  lemma JudgedByContent(buffer: seq<Byte>, pos: nat, start: nat, carriedHash: int, hash: int, carried: int, p: Params)
    requires start <= pos < |buffer| && p.avgSize > 0 && Word(carriedHash) == Word(carried)
    requires Word(hash) == Word(ExactHash(buffer, start, pos, carriedHash))
    ensures Word(RollHash(buffer, pos, start, hash)) == HashAt(buffer, start, pos + 1, carried)
    ensures IsCandidate(pos - start + 1, RollHash(buffer, pos, start, hash), p) && IsSafe(buffer, pos, p) <==> MayEnd(buffer, start, pos + 1, carried, p)
  {
    hide HashAt, RollHash, ExactHash, Word;
    RolledIsHashAt(buffer, pos, start, carriedHash, hash, carried);
  }

  lemma {:induction false} FrontStays(buffer: seq<Byte>, chunks: seq<seq<Byte>>, chunk: seq<Byte>, i: nat)
    requires i <= |chunks|
    ensures StartOf(chunks + [chunk], i) == StartOf(chunks, i)
    ensures StartOf(chunks, i) <= |buffer| ==> CarriedTo(buffer, chunks + [chunk], i) == CarriedTo(buffer, chunks, i)
  {
    hide HashAt;
    if i > 0 {
      FrontStays(buffer, chunks, chunk, i - 1);
    }
  }

  /** So far every chunk ends at the first position at which it may, and the one that is under way has not met one. */
  ghost predicate CutSoFar(buffer: seq<Byte>, chunks: seq<seq<Byte>>, n: nat, p: Params)
    requires n <= |buffer| && p.avgSize > 0
  {
    var start := StartOf(chunks, |chunks|);
    && start <= n && (forall i | 0 <= i < |chunks| :: EndsWhereItMay(buffer, chunks, i, p))
    && forall e | start < e <= n :: !MayEnd(buffer, start, e, CarriedTo(buffer, chunks, |chunks|), p)
  }

  lemma OneMoreChunk(buffer: seq<Byte>, chunks: seq<seq<Byte>>, end: nat, p: Params)
    requires 0 < end <= |buffer| && p.avgSize > 0 && CutSoFar(buffer, chunks, end - 1, p)
    requires end < |buffer| ==> MayEnd(buffer, StartOf(chunks, |chunks|), end, CarriedTo(buffer, chunks, |chunks|), p)
    ensures var chunks' := chunks + [buffer[StartOf(chunks, |chunks|)..end]];
            && StartOf(chunks', |chunks'|) == end && forall i | 0 <= i < |chunks'| :: EndsWhereItMay(buffer, chunks', i, p)
  {
    hide MayEnd, HashAt;
    var start := StartOf(chunks, |chunks|);
    var chunks' := chunks + [buffer[start..end]];
    FrontStays(buffer, chunks, buffer[start..end], |chunks|);
    forall i | 0 <= i < |chunks|
      ensures EndsWhereItMay(buffer, chunks', i, p)
    {
      assert EndsWhereItMay(buffer, chunks, i, p);
      FrontStays(buffer, chunks, buffer[start..end], i);
      FrontStays(buffer, chunks, buffer[start..end], i + 1);
    }
  }

  lemma NothingCut(buffer: seq<Byte>, p: Params)
    requires p.avgSize > 0
    ensures CutSoFar(buffer, [], 0, p)
  {
  }

  lemma {:induction false} ScanCutsUp(buffer: seq<Byte>, n: nat, p: Params)
    requires n <= |buffer| && p.avgSize > 0
    ensures var s := ScanFrom(0, buffer, n, p);
            && StartOf(s.chunks, |s.chunks|) == s.start && CutSoFar(buffer, s.chunks, n, p)
            && Word(ScanFrom(0, buffer, s.start, p).hash) == CarriedTo(buffer, s.chunks, |s.chunks|)
  {
    hide HashAt, MayEnd, Step, ExactHash;
    if n == 0 {
      NothingCut(buffer, p);
    } else {
      ScanCutsUp(buffer, n - 1, p);
      HashIsExact(0, buffer, n - 1, p);
      StepCutsUp(buffer, n - 1, ScanFrom(0, buffer, n - 1, p), ScanFrom(0, buffer, ScanFrom(0, buffer, n - 1, p).start, p).hash, p);
    }
  }

  lemma StepCutsUp(buffer: seq<Byte>, pos: nat, s: Scan, carriedHash: int, p: Params)
    requires s.start <= pos < |buffer| && p.avgSize > 0
    requires StartOf(s.chunks, |s.chunks|) == s.start && CutSoFar(buffer, s.chunks, pos, p)
    requires Word(carriedHash) == CarriedTo(buffer, s.chunks, |s.chunks|) && Word(s.hash) == Word(ExactHash(buffer, s.start, pos, carriedHash))
    ensures var s' := Step(buffer, pos, s, p);
            && StartOf(s'.chunks, |s'.chunks|) == s'.start && CutSoFar(buffer, s'.chunks, pos + 1, p)
            && s'.start in {s.start, pos + 1} && (s'.start == s.start ==> s'.chunks == s.chunks)
            && (s'.start == pos + 1 ==> Word(s'.hash) == CarriedTo(buffer, s'.chunks, |s'.chunks|))
  {
    var carried := CarriedTo(buffer, s.chunks, |s.chunks|);
    JudgedByContent(buffer, pos, s.start, carriedHash, s.hash, carried, p);
    hide HashAt, MayEnd, RollHash, IsCandidate, IsSafe, ExactHash, EndsWhereItMay;
    if MayEnd(buffer, s.start, pos + 1, carried, p) {
      OneMoreChunk(buffer, s.chunks, pos + 1, p);
      FrontStays(buffer, s.chunks, buffer[s.start..pos + 1], |s.chunks|);
    }
  }

  /** Every chunk ends where its content or its size first lets it; so the chunks are the only ones that do. */
  lemma ChunksAreCutUp(buffer: seq<Byte>, p: Params)
    requires p.avgSize > 0
    ensures IsCutUp(buffer, Chunks(buffer, p), p)
  {
    ScanCutsUp(buffer, |buffer|, p);
    var s := ScanFrom(0, buffer, |buffer|, p);
    hide MayEnd, HashAt, ScanFrom, EndsWhereItMay;
    if s.start < |buffer| {
      assert buffer[s.start..] == buffer[s.start..|buffer|];
      LastChunk(buffer, s.chunks, p);
    } else {
      assert s.chunks + [] == s.chunks;
    }
  }

  lemma LastChunk(buffer: seq<Byte>, chunks: seq<seq<Byte>>, p: Params)
    requires p.avgSize > 0 && CutSoFar(buffer, chunks, |buffer|, p) && StartOf(chunks, |chunks|) < |buffer|
    ensures IsCutUp(buffer, chunks + [buffer[StartOf(chunks, |chunks|)..]], p)
  {
    hide MayEnd, HashAt;
    var start := StartOf(chunks, |chunks|);
    assert buffer[start..] == buffer[start..|buffer|];
    assert CutSoFar(buffer, chunks, |buffer| - 1, p);
    OneMoreChunk(buffer, chunks, |buffer|, p);
  }

  method SplitBuffer(buffer: seq<Byte>, p: Params) returns (chunks: seq<seq<Byte>>)
    requires p.avgSize > 0
    ensures chunks == Chunks(buffer, p) && IsCutUp(buffer, chunks, p)
  {
    var powW := ComputePowW();
    var pos, hash, start := 0, 0, 0;
    chunks := [];
    while pos < |buffer|
      invariant 0 <= start <= pos <= |buffer|
      invariant Scan(hash, start, chunks) == ScanFrom(0, buffer, pos, p)
    {
      hash := Roll(buffer, pos, start, hash, powW);
      var cut := JudgeBoundary(buffer, pos, start, hash, p);
      if cut {
        chunks := chunks + [buffer[start..pos + 1]];
        start := pos + 1;
      }
      pos := pos + 1;
    }
    if start < |buffer| {
      chunks := chunks + [buffer[start..]];
    }
    ChunksAreCutUp(buffer, p);
  }
}
