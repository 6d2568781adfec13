/** Cutting a payload into pieces of bounded UTF-8 size, and putting the pieces together again. */
module RpcChunking {

  import opened Options

  /** A string is a sequence of UTF-16 code units. */
  type CodeUnit = u: int | 0 <= u < 0x1_0000

  type Text = seq<CodeUnit>

  predicate IsHigh(u: CodeUnit) {
    0xD800 <= u < 0xDC00
  }

  predicate IsLow(u: CodeUnit) {
    0xDC00 <= u < 0xE000
  }

  /** The UTF-8 size of a code unit by itself; a lone surrogate is replaced by U+FFFD. */
  function UnitSize(u: CodeUnit): nat {
    if u < 0x80 then 1 else if u < 0x800 then 2 else 3
  }

  function EstimateBytes(text: Text): (n: nat)
    ensures |text| == 1 ==> n == UnitSize(text[0])
  {
    if text == [] then 0
    else if IsHigh(text[0]) && |text| > 1 && IsLow(text[1]) then 4 + EstimateBytes(text[2..])
    else UnitSize(text[0]) + EstimateBytes(text[1..])
  }

  /** No code unit counts for more than the text it is part of. */
  lemma {:induction false} UnitIsWithinEstimate(text: Text, i: nat)
    requires i < |text|
    ensures UnitSize(text[i]) <= EstimateBytes(text)
  {
    if IsHigh(text[0]) && |text| > 1 && IsLow(text[1]) {
      if i >= 2 {
        UnitIsWithinEstimate(text[2..], i - 2);
      }
    } else if i >= 1 {
      UnitIsWithinEstimate(text[1..], i - 1);
    }
  }

  function Concat(pieces: seq<Text>): Text {
    if pieces == [] then [] else Concat(pieces[..|pieces| - 1]) + pieces[|pieces| - 1]
  }

  predicate InSome(pieces: seq<Text>, u: CodeUnit) {
    exists i :: 0 <= i < |pieces| && u in pieces[i]
  }

  lemma InFrontOrLast(pieces: seq<Text>, u: CodeUnit)
    requires pieces != []
    ensures InSome(pieces, u) <==> InSome(pieces[..|pieces| - 1], u) || u in pieces[|pieces| - 1]
  {
    var front := pieces[..|pieces| - 1];
    if i :| 0 <= i < |front| && u in front[i] {
      assert u in pieces[i];
    }
    if i :| 0 <= i < |pieces| && u in pieces[i] {
      assert i < |front| ==> u in front[i];
    }
  }

  lemma {:induction false} UnitsOfConcat(pieces: seq<Text>, u: CodeUnit)
    ensures u in Concat(pieces) <==> InSome(pieces, u)
  {
    if pieces != [] {
      UnitsOfConcat(pieces[..|pieces| - 1], u);
      InFrontOrLast(pieces, u);
      hide InSome;
    }
  }

  /** Whatever the bound, a piece is within it or cannot be made smaller. */
  predicate SmallEnough(piece: Text, maxBytes: int) {
    piece != [] && (EstimateBytes(piece) <= maxBytes || |piece| == 1)
  }

  function StepFor(maxBytes: int): nat {
    if maxBytes / 2 < 16 then 16 else maxBytes / 2
  }

  /** A piece is not cut short: with one more code unit it would be longer than a step, or too large. */
  predicate IsFull(piece: Text, next: CodeUnit, maxBytes: int) {
    |piece| >= StepFor(maxBytes) || EstimateBytes(piece + [next]) > maxBytes
  }

  /** No piece but the last is cut short. */
  predicate AllFull(chunks: seq<Text>, maxBytes: int) {
    forall i | 0 < i < |chunks| :: chunks[i] != [] && IsFull(chunks[i - 1], chunks[i][0], maxBytes)
  }

  lemma OneMorePiece(chunks: seq<Text>, part: Text, maxBytes: int)
    requires AllFull(chunks, maxBytes) && part != []
    requires chunks != [] ==> IsFull(chunks[|chunks| - 1], part[0], maxBytes)
    ensures AllFull(chunks + [part], maxBytes) && Concat(chunks + [part]) == Concat(chunks) + part
  {
    hide IsFull;
    var all := chunks + [part];
    assert all[..|chunks|] == chunks;
    forall i | 0 < i < |all|
      ensures all[i] != [] && IsFull(all[i - 1], all[i][0], maxBytes)
    {
      assert i < |chunks| ==> all[i] == chunks[i] && all[i - 1] == chunks[i - 1];
    }
  }

  /** Where the piece that begins at `cursor` ends: behind a step, or as far as the bound allows. */
  method CutPiece(payload: Text, cursor: nat, maxBytes: int) returns (end: nat)
    requires cursor < |payload|
    ensures cursor < end <= |payload| && SmallEnough(payload[cursor..end], maxBytes)
    ensures end < |payload| ==> IsFull(payload[cursor..end], payload[end], maxBytes)
  {
    end := if |payload| < cursor + StepFor(maxBytes) then |payload| else cursor + StepFor(maxBytes);
    var part := payload[cursor..end];
    while |part| > 1 && EstimateBytes(part) > maxBytes
      invariant cursor < end <= |payload| && part == payload[cursor..end]
      invariant end < |payload| ==> IsFull(part, payload[end], maxBytes)
      decreases end
    {
      end := if cursor + 1 < end - 1 then end - 1 else cursor + 1;
      assert payload[cursor..end] + [payload[end]] == part;
      part := payload[cursor..end];
    }
  }

  /**
   * The pieces join to the payload, and none but the last is cut short. All of them fit exactly if the payload fits
   * as a whole or no single code unit is too large, which is so for every payload from three bytes on.
   */
  method SplitIntoChunks(payload: Text, maxBytes: int) returns (chunks: seq<Text>)
    ensures Concat(chunks) == payload
    ensures chunks != []
    ensures maxBytes > 0 ==>
      ((forall c | c in chunks :: EstimateBytes(c) <= maxBytes)
       <==> EstimateBytes(payload) <= maxBytes || forall u | u in payload :: UnitSize(u) <= maxBytes)
    ensures maxBytes >= 3 ==> forall c | c in chunks :: EstimateBytes(c) <= maxBytes
    ensures maxBytes <= 0 || EstimateBytes(payload) <= maxBytes ==> chunks == [payload]
    ensures AllFull(chunks, maxBytes)
  {
    if maxBytes <= 0 {
      return [payload];
    }
    if EstimateBytes(payload) <= maxBytes {
      return [payload];
    }
    chunks := [];
    var cursor := 0;
    while cursor < |payload|
      invariant 0 <= cursor <= |payload| && (cursor > 0 ==> chunks != [])
      invariant Concat(chunks) == payload[..cursor]
      invariant forall c | c in chunks :: SmallEnough(c, maxBytes)
      invariant AllFull(chunks, maxBytes)
      invariant chunks != [] && cursor < |payload| ==> IsFull(chunks[|chunks| - 1], payload[cursor], maxBytes)
    {
      hide EstimateBytes, IsFull, AllFull, Concat;
      var end := CutPiece(payload, cursor, maxBytes);
      var part := payload[cursor..end];
      assert part[0] == payload[cursor];
      OneMorePiece(chunks, part, maxBytes);
      assert payload[..cursor] + part == payload[..end];
      chunks := chunks + [part];
      cursor := end;
    }
    assert payload[..cursor] == payload;
    FitsIff(chunks, maxBytes);
  }

  lemma FitsIff(chunks: seq<Text>, maxBytes: int)
    requires forall c | c in chunks :: SmallEnough(c, maxBytes)
    ensures (forall c | c in chunks :: EstimateBytes(c) <= maxBytes)
       <==> forall u | u in Concat(chunks) :: UnitSize(u) <= maxBytes
  {
    if forall c | c in chunks :: EstimateBytes(c) <= maxBytes {
      forall u | u in Concat(chunks)
        ensures UnitSize(u) <= maxBytes
      {
        UnitsOfConcat(chunks, u);
        assert InSome(chunks, u);
        var i :| 0 <= i < |chunks| && u in chunks[i];
        var k :| 0 <= k < |chunks[i]| && chunks[i][k] == u;
        UnitIsWithinEstimate(chunks[i], k);
      }
    } else {
      var c :| c in chunks && EstimateBytes(c) > maxBytes;
      var i :| 0 <= i < |chunks| && chunks[i] == c;
      UnitsOfConcat(chunks, c[0]);
      assert c[0] in Concat(chunks) && UnitSize(c[0]) > maxBytes;
    }
  }

  // ----- reassembly -----

  /** What an incoming buffer holds. */
  datatype Buffer = Buffer(total: int, parts: map<int, Text>) {
    predicate Valid() {
      forall i | i in parts :: 0 <= i < total
    }

    function Add(index: int, payload: Text): Buffer {
      if index < 0 || index >= total then this else this.(parts := parts[index := payload])
    }

    predicate IsComplete() {
      |parts| == total
    }

    /** The indices up to `n` that are missing. */
    function MissingUpTo(n: nat): (missing: seq<int>)
      ensures forall i :: i in missing <==> 0 <= i < n && i !in parts
    {
      if n == 0 then [] else MissingUpTo(n - 1) + if n - 1 in parts then [] else [n - 1]
    }

    function Missing(): seq<int> {
      if total <= 0 then [] else MissingUpTo(total)
    }

    /** The parts in order; None if one is missing. */
    function PayloadUpTo(n: nat): (payload: Option<Text>)
      ensures payload.Some? <==> forall i | 0 <= i < n :: i in parts
    {
      if n == 0 then Some([])
      else if n - 1 !in parts then None
      else
        match PayloadUpTo(n - 1)
        case None => None
        case Some(front) => Some(front + parts[n - 1])
    }

    function ToPayload(): Option<Text> {
      if total <= 0 then Some([]) else PayloadUpTo(total)
    }
  }

  function Indices(n: nat): (s: set<int>)
    ensures |s| == n && forall i :: i in s <==> 0 <= i < n
  {
    if n == 0 then {} else Indices(n - 1) + {n - 1}
  }

  /** Counting the parts is as good as looking for missing ones. */
  lemma CompleteIffNothingMissing(b: Buffer)
    requires b.Valid() && b.total >= 0
    ensures b.IsComplete() <==> b.Missing() == []
    ensures b.IsComplete() <==> b.parts.Keys == Indices(b.total)
    ensures b.IsComplete() ==> b.ToPayload().Some?
  {
    var all := Indices(b.total);
    assert b.parts.Keys <= all;
    if b.IsComplete() {
      SubsetOfEqualSize(b.parts.Keys, all);
    }
    SomethingInside(b.Missing());
    if b.Missing() == [] {
      forall i | i in all
        ensures i in b.parts
      {
        assert i !in b.Missing();
      }
      assert b.parts.Keys == all;
    }
  }

  lemma SomethingInside(s: seq<int>)
    ensures s == [] || exists i :: i in s
  {
    if s != [] {
      var i := s[0];
      assert i in s;
    }
  }

  lemma SubsetOfEqualSize(s: set<int>, t: set<int>)
    requires s <= t && |s| == |t|
    ensures s == t
  {
    assert t == s + (t - s);
    assert |t| == |s| + |t - s|;
    assert t - s == {};
  }

  class IncomingChunkBuffer {
    var total: int
    var parts: map<int, Text>

    function View(): Buffer
      reads this
    {
      Buffer(total, parts)
    }

    constructor (total: int)
      ensures View() == Buffer(total, map[])
    {
      this.total, this.parts := total, map[];
    }

    method Add(index: int, payload: Text)
      modifies this
      ensures View() == old(View()).Add(index, payload)
    {
      if index < 0 || index >= total {
        return;
      }
      parts := parts[index := payload];
    }

    method MissingIndices() returns (missing: seq<int>)
      ensures missing == View().Missing()
    {
      missing := [];
      if total > 0 {
        for i := 0 to total
          invariant missing == View().MissingUpTo(i)
        {
          if i !in parts {
            missing := missing + [i];
          }
        }
      }
    }

    method ToPayload() returns (payload: Option<Text>)
      ensures payload == View().ToPayload()
    {
      var acc := [];
      if total > 0 {
        for i := 0 to total
          invariant View().PayloadUpTo(i) == Some(acc)
        {
          if i !in parts {
            MissingPart(View(), i, total);
            return None;
          }
          acc := acc + parts[i];
        }
      }
      return Some(acc);
    }
  }

  lemma MissingPart(b: Buffer, i: int, n: int)
    requires 0 <= i < n && i !in b.parts
    ensures b.PayloadUpTo(n) == None
  {
  }

  // ----- buffers of a stream -----

  /** Everything in the buffer is a piece of the stream, at its place. */
  predicate BufferOf(b: Buffer, chunks: seq<Text>) {
    b.total == |chunks| && forall i | i in b.parts :: 0 <= i < |chunks| && b.parts[i] == chunks[i]
  }

  lemma {:induction false} PayloadOfStream(b: Buffer, chunks: seq<Text>, n: nat)
    requires BufferOf(b, chunks) && n <= |chunks| && forall i | 0 <= i < n :: i in b.parts
    ensures b.PayloadUpTo(n) == Some(Concat(chunks[..n]))
  {
    if n > 0 {
      PayloadOfStream(b, chunks, n - 1);
      assert chunks[..n][..n - 1] == chunks[..n - 1];
    }
  }

  /** A complete buffer of a stream holds exactly the payload of the stream. */
  lemma CompleteStreamIsPayload(b: Buffer, chunks: seq<Text>)
    requires BufferOf(b, chunks) && b.IsComplete()
    ensures b.ToPayload() == Some(Concat(chunks))
  {
    CompleteIffNothingMissing(b);
    PayloadOfStream(b, chunks, |chunks|);
    assert chunks[..|chunks|] == chunks;
  }

  function AddAll(b: Buffer, indices: seq<int>, chunks: seq<Text>): Buffer
    requires forall k | 0 <= k < |indices| :: 0 <= indices[k] < |chunks|
    decreases |indices|
  {
    if indices == [] then b else AddAll(b.Add(indices[0], chunks[indices[0]]), indices[1..], chunks)
  }

  /** One round of retransmission is enough: with the reported pieces, in any order and any number, the stream is complete. */
  lemma {:induction false} RetransmissionCompletes(b: Buffer, resent: seq<int>, chunks: seq<Text>)
    requires BufferOf(b, chunks) && forall k | 0 <= k < |resent| :: 0 <= resent[k] < |chunks|
    requires forall i | i in b.Missing() :: i in resent
    ensures AddAll(b, resent, chunks).IsComplete() && AddAll(b, resent, chunks).ToPayload() == Some(Concat(chunks))
    decreases |resent|
  {
    if resent == [] {
      SomethingInside(b.Missing());
      CompleteIffNothingMissing(b);
      CompleteStreamIsPayload(b, chunks);
    } else {
      var b' := b.Add(resent[0], chunks[resent[0]]);
      forall i | i in b'.Missing()
        ensures i in resent[1..]
      {
        assert i in b.Missing() && i in resent && i != resent[0];
        assert resent == [resent[0]] + resent[1..];
      }
      RetransmissionCompletes(b', resent[1..], chunks);
    }
  }
}
