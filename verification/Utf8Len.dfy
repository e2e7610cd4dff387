/** The UTF-8 length counter of lua/test_utf8.lua against RFC 3629. */
module Utf8Len {
  import opened Machine

  /** The class [%z\1-\127\194-\244]. */
  predicate IsLead(b: byte) {
    b <= 127 || 194 <= b <= 244
  }

  /** The class [\128-\191]. */
  predicate IsContinuation(b: byte) {
    128 <= b <= 191
  }

  /** How many bytes the greedy `[\128-\191]*` takes. */
  function Run(s: seq<byte>): (k: nat)
    ensures k <= |s|
    ensures forall i :: 0 <= i < k ==> IsContinuation(s[i])
    ensures k < |s| ==> !IsContinuation(s[k])
  {
    if s == [] || !IsContinuation(s[0]) then 0 else 1 + Run(s[1..])
  }

  /** The successive matches that gmatch yields, left to right. */
  function Matches(s: seq<byte>): seq<seq<byte>> {
    if s == [] then []
    else if !IsLead(s[0]) then Matches(s[1..])
    else
      var k := 1 + Run(s[1..]);
      [s[..k]] + Matches(s[k..])
  }

  function LeadCount(s: seq<byte>): nat {
    if s == [] then 0 else (if IsLead(s[0]) then 1 else 0) + LeadCount(s[1..])
  }

  lemma {:induction false} LeadCountAdds(s: seq<byte>, t: seq<byte>)
    ensures LeadCount(s + t) == LeadCount(s) + LeadCount(t)
  {
    if s == [] {
      assert s + t == t;
    } else {
      assert (s + t)[1..] == s[1..] + t;
      LeadCountAdds(s[1..], t);
    }
  }

  lemma {:induction false} NoLeads(s: seq<byte>)
    requires forall i :: 0 <= i < |s| ==> IsContinuation(s[i])
    ensures LeadCount(s) == 0
  {
    if s != [] { NoLeads(s[1..]); }
  }

  /** On arbitrary bytes, greedy matching finds one match for each lead-class byte. */
  lemma {:induction false} MatchesAreLeads(s: seq<byte>)
    ensures |Matches(s)| == LeadCount(s)
    decreases |s|
  {
    if s != [] {
      if IsLead(s[0]) {
        var k := 1 + Run(s[1..]);
        MatchesAreLeads(s[k..]);
        NoLeads(s[1..k]);
        assert s[1..] == s[1..k] + s[k..];
        LeadCountAdds(s[1..k], s[k..]);
      } else {
        MatchesAreLeads(s[1..]);
      }
    }
  }

  /** The greedy `[\128-\191]*` of one match. */
  method SkipContinuation(s: seq<byte>, pos: nat) returns (end: nat)
    requires pos <= |s|
    ensures end == pos + Run(s[pos..]) <= |s|
  {
    end := pos;
    while end < |s| && IsContinuation(s[end])
      invariant pos <= end <= |s|
      invariant end - pos + Run(s[end..]) == Run(s[pos..])
    {
      assert s[end..][1..] == s[end + 1..];
      end := end + 1;
    }
  }

  lemma MatchesFrom(s: seq<byte>, pos: nat)
    requires pos < |s|
    ensures |Matches(s[pos..])| ==
      if IsLead(s[pos]) then 1 + |Matches(s[pos + 1 + Run(s[pos + 1..])..])| else |Matches(s[pos + 1..])|
  {
    assert s[pos..][1..] == s[pos + 1..];
    var k := 1 + Run(s[pos + 1..]);
    assert s[pos..][k..] == s[pos + k..];
  }

  method Utf8Len(s: seq<byte>) returns (count: nat)
    ensures count == LeadCount(s)
    ensures count == |Matches(s)|
  {
    count := 0;
    var pos := 0;
    while pos < |s|
      invariant 0 <= pos <= |s|
      invariant count + |Matches(s[pos..])| == |Matches(s)|
    {
      MatchesFrom(s, pos);
      if IsLead(s[pos]) {
        count := count + 1;
        pos := SkipContinuation(s, pos + 1);
      } else {
        pos := pos + 1;
      }
    }
    MatchesAreLeads(s);
  }

  /** Which single bytes are counted: all of ASCII and the first bytes of sequences, but not 192, 193 and
      the bytes from 245 on, which no encoding uses, and no continuation byte. */
  lemma SingleBytes(b: byte)
    ensures LeadCount([b]) ==
      if 128 <= b <= 191 || b == 192 || b == 193 || b >= 245 then 0 else 1
  {
    assert LeadCount([b][1..]) == 0;
  }

  /** Unicode scalar values: section 3 of RFC 3629 excludes the surrogates and stops at 10FFFF. */
  type Scalar = c: int | 0 <= c < 0xD800 || 0xE000 <= c <= 0x10FFFF

  /** The encoding table of section 3 of RFC 3629. */
  function Encode(c: Scalar): (s: seq<byte>)
    ensures 1 <= |s| <= 4 && IsLead(s[0])
    ensures forall i :: 1 <= i < |s| ==> IsContinuation(s[i])
  {
    if c < 0x80 then
      [c as byte]
    else if c < 0x800 then
      [(0xC0 + c / 0x40) as byte, (0x80 + c % 0x40) as byte]
    else if c < 0x10000 then
      [(0xE0 + c / 0x1000) as byte, (0x80 + c / 0x40 % 0x40) as byte, (0x80 + c % 0x40) as byte]
    else
      [(0xF0 + c / 0x40000) as byte, (0x80 + c / 0x1000 % 0x40) as byte,
       (0x80 + c / 0x40 % 0x40) as byte, (0x80 + c % 0x40) as byte]
  }

  /** The number in the free bits of a sequence, first byte first. */
  function FreeBits(s: seq<byte>): nat
    requires 1 <= |s| <= 4
  {
    match |s|
    case 1 => s[0] as int
    case 2 => (s[0] as int % 0x20) * 0x40 + s[1] as int % 0x40
    case 3 => (s[0] as int % 0x10) * 0x1000 + (s[1] as int % 0x40) * 0x40 + s[2] as int % 0x40
    case 4 =>
      (s[0] as int % 0x08) * 0x40000 + (s[1] as int % 0x40) * 0x1000 + (s[2] as int % 0x40) * 0x40 + s[3] as int % 0x40
  }

  lemma LowBits(x: nat)
    ensures x < 0x40 ==> (0x80 + x) % 0x40 == x
    ensures x < 0x20 ==> (0xC0 + x) % 0x20 == x
    ensures x < 0x10 ==> (0xE0 + x) % 0x10 == x
    ensures x < 0x08 ==> (0xF0 + x) % 0x08 == x
  {
  }

  lemma SplitBits(c: nat)
    ensures c == c / 0x40 * 0x40 + c % 0x40
    ensures c / 0x1000 == c / 0x40 / 0x40 && c / 0x40000 == c / 0x1000 / 0x40
  {
  }

  lemma FreeBitsOf(lead: byte, x: nat, y: nat, z: nat)
    requires x < 0x40 && y < 0x40 && z < 0x40
    ensures FreeBits([lead, (0x80 + x) as byte]) == (lead as int % 0x20) * 0x40 + x
    ensures FreeBits([lead, (0x80 + x) as byte, (0x80 + y) as byte]) == (lead as int % 0x10) * 0x1000 + x * 0x40 + y
    ensures FreeBits([lead, (0x80 + x) as byte, (0x80 + y) as byte, (0x80 + z) as byte]) ==
      (lead as int % 0x08) * 0x40000 + x * 0x1000 + y * 0x40 + z
  {
    LowBits(x);
    LowBits(y);
    LowBits(z);
  }

  lemma TwoBytes(c: Scalar)
    requires 0x80 <= c < 0x800
    ensures FreeBits(Encode(c)) == c && |Encode(c)| == 2
  {
    SplitBits(c);
    LowBits(c / 0x40);
    FreeBitsOf(Encode(c)[0], c % 0x40, 0, 0);
  }

  lemma ThreeBytes(c: Scalar)
    requires 0x800 <= c < 0x10000
    ensures FreeBits(Encode(c)) == c && |Encode(c)| == 3
  {
    SplitBits(c);
    SplitBits(c / 0x40);
    LowBits(c / 0x1000);
    FreeBitsOf(Encode(c)[0], c / 0x40 % 0x40, c % 0x40, 0);
  }

  lemma FourBytes(c: Scalar)
    requires 0x10000 <= c
    ensures FreeBits(Encode(c)) == c && |Encode(c)| == 4
  {
    SplitBits(c);
    SplitBits(c / 0x40);
    SplitBits(c / 0x1000);
    LowBits(c / 0x40000);
    FreeBitsOf(Encode(c)[0], c / 0x1000 % 0x40, c / 0x40 % 0x40, c % 0x40);
  }

  /** The free bits of an encoding are the character, and its length is the shortest that has room for it. */
  lemma EncodingHoldsCharacter(c: Scalar)
    ensures FreeBits(Encode(c)) == c
    ensures |Encode(c)| == if c <= 0x7F then 1 else if c <= 0x7FF then 2 else if c <= 0xFFFF then 3 else 4
  {
    if 0x80 <= c < 0x800 {
      TwoBytes(c);
    } else if 0x800 <= c < 0x10000 {
      ThreeBytes(c);
    } else if 0x10000 <= c {
      FourBytes(c);
    }
  }

  /** The examples of section 7 of RFC 3629. */
  lemma EncodingExamples()
    ensures EncodeAll([0x41, 0x2262, 0x391, 0x2E]) == [0x41, 0xE2, 0x89, 0xA2, 0xCE, 0x91, 0x2E]
    ensures EncodeAll([0x233B4]) == [0xF0, 0xA3, 0x8E, 0xB4]
  {
    assert EncodeAll([]) == [];
  }

  function EncodeAll(cs: seq<Scalar>): seq<byte> {
    if cs == [] then [] else Encode(cs[0]) + EncodeAll(cs[1..])
  }

  lemma {:induction false} RunStops(s: seq<byte>, t: seq<byte>)
    requires forall i :: 0 <= i < |s| ==> IsContinuation(s[i])
    requires t == [] || !IsContinuation(t[0])
    ensures Run(s + t) == |s|
  {
    if s == [] {
      assert s + t == t;
    } else {
      assert (s + t)[1..] == s[1..] + t;
      RunStops(s[1..], t);
    }
  }

  lemma FirstMatch(first: seq<byte>, rest: seq<byte>)
    requires first != [] && IsLead(first[0])
    requires forall i :: 1 <= i < |first| ==> IsContinuation(first[i])
    requires rest == [] || !IsContinuation(rest[0])
    ensures Matches(first + rest) == [first] + Matches(rest)
  {
    var all := first + rest;
    assert all[1..] == first[1..] + rest;
    RunStops(first[1..], rest);
    assert all[..|first|] == first && all[|first|..] == rest;
  }

  function EncodeEach(cs: seq<Scalar>): seq<seq<byte>> {
    if cs == [] then [] else [Encode(cs[0])] + EncodeEach(cs[1..])
  }

  /** On well-formed UTF-8 the matches are exactly the encodings of the scalar values, one each. */
  lemma {:induction false} MatchesSegmentEncoding(cs: seq<Scalar>)
    ensures Matches(EncodeAll(cs)) == EncodeEach(cs)
    ensures |EncodeEach(cs)| == |cs|
  {
    if cs != [] {
      MatchesSegmentEncoding(cs[1..]);
      FirstMatch(Encode(cs[0]), EncodeAll(cs[1..]));
    }
  }

  /** Hence the counter returns the number of characters, on any sequence of characters. */
  lemma CountsScalars(cs: seq<Scalar>)
    ensures LeadCount(EncodeAll(cs)) == |cs|
  {
    MatchesSegmentEncoding(cs);
    MatchesAreLeads(EncodeAll(cs));
  }
}
