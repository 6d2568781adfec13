/** Well-formed UTF-8, as section 4 of RFC 3629 defines it, and where such a text may be cut. */
module Utf8 {

  type Byte = b: int | 0 <= b < 256

  /** `(byte & 0xc0) === 0x80` */
  predicate IsContinuation(b: Byte) {
    0x80 <= b < 0xC0
  }

  /** How many bytes a character starting with this byte takes; 0 if none starts with it. */
  function CharLength(lead: Byte): nat {
    if lead < 0x80 then 1
    else if 0xC2 <= lead < 0xE0 then 2
    else if 0xE0 <= lead < 0xF0 then 3
    else if 0xF0 <= lead < 0xF5 then 4
    else 0
  }

  predicate ValidSecond(lead: Byte, second: Byte) {
    && IsContinuation(second)
    && (lead == 0xE0 ==> 0xA0 <= second)
    && (lead == 0xED ==> second < 0xA0)
    && (lead == 0xF0 ==> 0x90 <= second)
    && (lead == 0xF4 ==> second < 0x90)
  }

  /** The text starts with one whole character. */
  predicate StartsWithChar(s: seq<Byte>) {
    && s != []
    && var n := CharLength(s[0]);
       && 0 < n <= |s|
       && (n >= 2 ==> ValidSecond(s[0], s[1]))
       && (n >= 3 ==> IsContinuation(s[2]))
       && (n == 4 ==> IsContinuation(s[3]))
  }

  predicate WellFormed(s: seq<Byte>) {
    s == [] || (StartsWithChar(s) && WellFormed(s[CharLength(s[0])..]))
  }

  /** The code point of the first character. */
  function FirstCodePoint(s: seq<Byte>): int
    requires StartsWithChar(s)
  {
    match CharLength(s[0])
    case 1 => s[0]
    case 2 => 0x40 * (s[0] as int - 0xC0) + (s[1] as int - 0x80)
    case 3 => 0x1000 * (s[0] as int - 0xE0) + 0x40 * (s[1] as int - 0x80) + (s[2] as int - 0x80)
    case _ => 0x40000 * (s[0] as int - 0xF0) + 0x1000 * (s[1] as int - 0x80) + 0x40 * (s[2] as int - 0x80) + (s[3] as int - 0x80)
  }

  /** Only the bytes of the first character are looked at. */
  lemma FirstCharOfPrefix(s: seq<Byte>, i: nat)
    requires StartsWithChar(s) && CharLength(s[0]) <= i <= |s|
    ensures StartsWithChar(s[..i]) && FirstCodePoint(s[..i]) == FirstCodePoint(s)
  {
  }

  /** Inside the first character there are only continuation bytes. */
  lemma ContinuationsOfFirstChar(s: seq<Byte>, i: nat)
    requires StartsWithChar(s) && 0 < i < CharLength(s[0])
    ensures IsContinuation(s[i])
  {
  }

  function Decode(s: seq<Byte>): seq<int>
    requires WellFormed(s)
  {
    if s == [] then [] else [FirstCodePoint(s)] + Decode(s[CharLength(s[0])..])
  }

  /** A cut in front of a byte that is no continuation byte separates whole characters. */
  lemma {:induction false} CutAtCharacter(s: seq<Byte>, i: nat)
    requires WellFormed(s) && i <= |s|
    requires i < |s| ==> !IsContinuation(s[i])
    ensures WellFormed(s[..i]) && WellFormed(s[i..])
    ensures Decode(s) == Decode(s[..i]) + Decode(s[i..])
  {
    if i == 0 {
      assert s[..i] == [] && s[i..] == s;
    } else {
      var n := CharLength(s[0]);
      if i < n {
        ContinuationsOfFirstChar(s, i);
      }
      CutAtCharacter(s[n..], i - n);
      CutBehindFirstChar(s, i);
    }
  }

  lemma CutBehindFirstChar(s: seq<Byte>, i: nat)
    requires s != [] && StartsWithChar(s) && WellFormed(s) && CharLength(s[0]) <= i <= |s|
    requires var rest, j := s[CharLength(s[0])..], i - CharLength(s[0]);
             WellFormed(rest[..j]) && WellFormed(rest[j..]) && Decode(rest) == Decode(rest[..j]) + Decode(rest[j..])
    ensures WellFormed(s[..i]) && WellFormed(s[i..]) && Decode(s) == Decode(s[..i]) + Decode(s[i..])
  {
    hide *;
    var n := CharLength(s[0]);
    var rest := s[n..];
    PrefixIsCharAndPrefix(s, i);
    DecodeFirst(s);
    assert rest[i - n..] == s[i..];
    var c, front, back := [FirstCodePoint(s)], Decode(rest[..i - n]), Decode(rest[i - n..]);
    assert c + (front + back) == c + front + back;
  }

  lemma DecodeFirst(s: seq<Byte>)
    requires s != [] && WellFormed(s)
    ensures StartsWithChar(s) && WellFormed(s[CharLength(s[0])..])
    ensures Decode(s) == [FirstCodePoint(s)] + Decode(s[CharLength(s[0])..])
  {
  }

  lemma PrefixIsCharAndPrefix(s: seq<Byte>, i: nat)
    requires StartsWithChar(s) && CharLength(s[0]) <= i <= |s|
    requires WellFormed(s[CharLength(s[0])..][..i - CharLength(s[0])])
    ensures WellFormed(s[..i])
    ensures Decode(s[..i]) == [FirstCodePoint(s)] + Decode(s[CharLength(s[0])..][..i - CharLength(s[0])])
  {
    var n := CharLength(s[0]);
    FirstCharOfPrefix(s, i);
    assert s[..i][n..] == s[n..][..i - n];
  }

  /** The characters between two such cuts. */
  lemma CutOut(s: seq<Byte>, from: nat, to: nat)
    requires WellFormed(s) && from <= to <= |s|
    requires from < |s| ==> !IsContinuation(s[from])
    requires to < |s| ==> !IsContinuation(s[to])
    ensures WellFormed(s[from..to])
  {
    CutAtCharacter(s, to);
    if from < to {
      CutAtCharacter(s[..to], from);
      assert s[..to][from..] == s[from..to];
    }
  }

  /** There are never four continuation bytes in a row. */
  lemma {:induction false} NoFourContinuations(s: seq<Byte>, i: nat)
    requires WellFormed(s) && i + 3 < |s|
    ensures exists k :: i <= k <= i + 3 && !IsContinuation(s[k])
  {
    var n := CharLength(s[0]);
    var rest := s[n..];
    if i == 0 {
      assert !IsContinuation(s[0]);
    } else if i <= n {
      assert rest != [] && !IsContinuation(rest[0]);
      assert !IsContinuation(s[n]);
    } else {
      NoFourContinuations(rest, i - n);
      var k :| i - n <= k <= i - n + 3 && !IsContinuation(rest[k]);
      assert !IsContinuation(s[k + n]);
    }
  }
}
