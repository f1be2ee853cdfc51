/**
 * What the streaming decoder makes of bytes that are not well-formed UTF-8, and that it takes nothing
 * else for a character (section 3 of RFC 3629; packages/electrobun-qa/src/host/socket-server.ts).
 */
module Utf8Errors {
  import opened Sequences
  import opened Utf8

  // ----- the encoding, byte by byte -----

  predicate IsContinuation(b: Byte) {
    0x80 <= b <= 0xBF
  }

  function Bits(b: Byte, lead: int): int {
    b as int - lead
  }

  lemma ShortEncoding(c: char)
    requires c as int < 0x800
    ensures var bytes, n := EncodeChar(c), c as int;
      && (n < 0x80 ==> bytes == [n])
      && (0x80 <= n ==>
            && |bytes| == 2 && 0xC2 <= bytes[0] <= 0xDF && IsContinuation(bytes[1])
            && n == Bits(bytes[0], 0xC0) * 64 + Bits(bytes[1], 0x80))
  {
  }

  lemma ThreeOctets(c: char)
    requires 0x800 <= c as int < 0x1_0000
    ensures var bytes, n := EncodeChar(c), c as int;
      && |bytes| == 3 && 0xE0 <= bytes[0] <= 0xEF && IsContinuation(bytes[1]) && IsContinuation(bytes[2])
      && n == Bits(bytes[0], 0xE0) * 4096 + Bits(bytes[1], 0x80) * 64 + Bits(bytes[2], 0x80)
  {
  }

  lemma FourOctets(c: char)
    requires 0x1_0000 <= c as int
    ensures var bytes, n := EncodeChar(c), c as int;
      && |bytes| == 4 && 0xF0 <= bytes[0] <= 0xF4
      && IsContinuation(bytes[1]) && IsContinuation(bytes[2]) && IsContinuation(bytes[3])
      && n == Bits(bytes[0], 0xF0) * 262144 + Bits(bytes[1], 0x80) * 4096 + Bits(bytes[2], 0x80) * 64
              + Bits(bytes[3], 0x80)
  {
    Digits(c as int);
  }

  lemma Digits(n: nat)
    ensures n == n / 262144 * 262144 + n / 4096 % 64 * 4096 + n / 64 % 64 * 64 + n % 64
  {
    assert n / 64 / 64 == n / 4096 && n / 4096 / 64 == n / 262144;
  }

  /** The octets of the table in section 3 of RFC 3629: leading bits, continuation octets, and the number in them. */
  ghost predicate IsOctetsOf(bytes: seq<Byte>, n: int) {
    if n < 0x80 then bytes == [n]
    else if n < 0x800 then
      && |bytes| == 2 && 0xC2 <= bytes[0] <= 0xDF && IsContinuation(bytes[1])
      && n == Bits(bytes[0], 0xC0) * 64 + Bits(bytes[1], 0x80)
    else if n < 0x1_0000 then
      && |bytes| == 3 && 0xE0 <= bytes[0] <= 0xEF && IsContinuation(bytes[1]) && IsContinuation(bytes[2])
      && n == Bits(bytes[0], 0xE0) * 4096 + Bits(bytes[1], 0x80) * 64 + Bits(bytes[2], 0x80)
    else
      && |bytes| == 4 && 0xF0 <= bytes[0] <= 0xF4
      && IsContinuation(bytes[1]) && IsContinuation(bytes[2]) && IsContinuation(bytes[3])
      && n == Bits(bytes[0], 0xF0) * 262144 + Bits(bytes[1], 0x80) * 4096 + Bits(bytes[2], 0x80) * 64
              + Bits(bytes[3], 0x80)
  }

  lemma EncodingMeaning(c: char)
    ensures IsOctetsOf(EncodeChar(c), c as int)
  {
    if c as int < 0x800 {
      ShortEncoding(c);
    } else if c as int < 0x1_0000 {
      ThreeOctets(c);
    } else {
      FourOctets(c);
    }
  }

  lemma FirstOctet(c: char)
    ensures EncodeChar(c) != [] && !IsContinuation(EncodeChar(c)[0])
  {
    EncodingMeaning(c);
  }

  // ----- nothing but the encoding is decoded -----

  predicate WholeRange(s: State) {
    s.lower == 0x80 && s.upper == 0xBF
  }

  /** `pending` are the first bytes of some character, and `s` is where they lead. */
  predicate Began(s: State, pending: seq<Byte>) {
    match s.missing
    case 0 => s == INITIAL && pending == []
    case 1 =>
      && WholeRange(s)
      && (|| (2 <= s.point < 32 && pending == [0xC0 + s.point])
          || (32 <= s.point < 1024 && !(864 <= s.point < 896)
              && pending == [0xE0 + s.point / 64, 0x80 + s.point % 64])
          || (1024 <= s.point < 17408
              && pending == [0xF0 + s.point / 4096, 0x80 + s.point / 64 % 64, 0x80 + s.point % 64]))
    case 2 =>
      || (0 <= s.point < 16 && pending == [0xE0 + s.point]
          && s.lower == (if s.point == 0 then 0xA0 else 0x80) && s.upper == (if s.point == 13 then 0x9F else 0xBF))
      || (WholeRange(s) && 16 <= s.point < 272 && pending == [0xF0 + s.point / 64, 0x80 + s.point % 64])
    case 3 =>
      && 0 <= s.point < 5 && pending == [0xF0 + s.point]
      && s.lower == (if s.point == 0 then 0x90 else 0x80) && s.upper == (if s.point == 4 then 0x8F else 0xBF)
    case _ => false
  }

  lemma LeadBegins(b: Byte)
    ensures Lead(b).0 == "" ==> Began(Lead(b).1, [b])
    ensures Lead(b).0 != "" ==>
      Lead(b).1 == INITIAL && (Lead(b).0 == [REPLACEMENT] || (b < 0x80 && Lead(b).0 == [b as char]))
  {
  }

  lemma ContinuesMiddle(s: State, pending: seq<Byte>, b: Byte)
    requires Valid(s) && Began(s, pending) && s.missing >= 2 && s.lower <= b <= s.upper
    ensures Step(s, b).0 == "" && Began(Step(s, b).1, pending + [b])
  {
    var point := s.point * 64 + (b - 0x80);
    assert point / 64 == s.point && point % 64 == b - 0x80;
    assert s.missing == 2 && |pending| == 2 ==> point / 4096 == s.point / 64;
  }

  lemma CompletesLast(s: State, pending: seq<Byte>, b: Byte)
    requires Valid(s) && Began(s, pending) && s.missing == 1 && s.lower <= b <= s.upper
    ensures |Step(s, b).0| == 1 && Step(s, b).1 == INITIAL && EncodeChar(Step(s, b).0[0]) == pending + [b]
  {
    var n := s.point * 64 + (b - 0x80);
    assert n / 64 == s.point && n % 64 == b - 0x80;
    assert n / 4096 == s.point / 64 && n / 262144 == s.point / 4096;
  }

  lemma EncodeSnoc(text: string, c: char)
    ensures Encode(text + [c]) == Encode(text) + EncodeChar(c)
  {
    assert (text + [c])[..|text|] == text;
  }

  /** One more byte, when no replacement comes out. */
  lemma StepIsEncoded(s: State, pending: seq<Byte>, b: Byte) returns (next: seq<Byte>)
    requires Valid(s) && Began(s, pending) && REPLACEMENT !in Step(s, b).0
    ensures Began(Step(s, b).1, next)
    ensures Step(s, b).0 == "" ==> next == pending + [b]
    ensures Step(s, b).0 != "" ==> |Step(s, b).0| == 1 && EncodeChar(Step(s, b).0[0]) + next == pending + [b]
  {
    if s.missing == 0 {
      LeadBegins(b);
      next := if Lead(b).0 == "" then [b] else [];
      assert [] + [b] == [b] && [b] + [] == [b];
    } else {
      NoReplacementContinues(s, b);
      if s.missing == 1 {
        CompletesLast(s, pending, b);
        next := [];
        assert pending + [b] + [] == pending + [b];
      } else {
        ContinuesMiddle(s, pending, b);
        next := pending + [b];
      }
    }
  }

  lemma NoReplacementContinues(s: State, b: Byte)
    requires Valid(s) && s.missing > 0 && REPLACEMENT !in Step(s, b).0
    ensures s.lower <= b <= s.upper
  {
    HeadIsIn(REPLACEMENT, Lead(b).0);
  }

  lemma HeadIsIn(c: char, rest: string)
    ensures c in [c] + rest
  {
    assert ([c] + rest)[0] == c;
  }

  /** Bytes that decode without a replacement are the encoding of the text, and the beginning of one character. */
  lemma {:induction false} DecodedIsEncoded(bytes: seq<Byte>) returns (pending: seq<Byte>)
    requires REPLACEMENT !in Feed(INITIAL, bytes).0
    ensures Began(Feed(INITIAL, bytes).1, pending)
    ensures bytes == Encode(Feed(INITIAL, bytes).0) + pending
  {
    if bytes == [] {
      pending := [];
    } else {
      var front, b := bytes[..|bytes| - 1], bytes[|bytes| - 1];
      var (text, s) := Feed(INITIAL, front);
      var more := Step(s, b).0;
      assert Feed(INITIAL, bytes).0 == text + more;
      NotInParts(text, more);
      var before := DecodedIsEncoded(front);
      pending := StepIsEncoded(s, before, b);
      InitAndLast(bytes);
      Grow(text, more, before, b, pending);
    }
  }

  lemma NotInParts(a: string, b: string)
    requires REPLACEMENT !in a + b
    ensures REPLACEMENT !in a && REPLACEMENT !in b
  {
    forall i | 0 <= i < |a| ensures a[i] != REPLACEMENT {
      assert (a + b)[i] == a[i];
    }
    forall i | 0 <= i < |b| ensures b[i] != REPLACEMENT {
      assert (a + b)[|a| + i] == b[i];
    }
  }

  lemma Grow(text: string, more: string, before: seq<Byte>, b: Byte, pending: seq<Byte>)
    requires more == "" ==> pending == before + [b]
    requires more != "" ==> |more| == 1 && EncodeChar(more[0]) + pending == before + [b]
    ensures Encode(text) + before + [b] == Encode(text + more) + pending
  {
    Regroup(Encode(text), before, [b]);
    if more == "" {
      assert text + more == text;
    } else {
      assert more == [more[0]];
      EncodeSnoc(text, more[0]);
      Regroup(Encode(text), EncodeChar(more[0]), pending);
    }
  }

  /** Bytes decode to a text without replacement characters, nothing pending, exactly if they encode it. */
  lemma DecodesExactly(bytes: seq<Byte>, text: string)
    requires REPLACEMENT !in text
    ensures Feed(INITIAL, bytes) == (text, INITIAL) <==> bytes == Encode(text)
  {
    if Feed(INITIAL, bytes) == (text, INITIAL) {
      var pending := DecodedIsEncoded(bytes);
      assert Encode(text) + [] == Encode(text);
    }
    FeedOfEncode(text);
  }

  // ----- what is not well-formed becomes one replacement character -----

  /** A byte that no character starts with: a continuation byte, or one the encoding never uses. */
  predicate IsStray(b: Byte) {
    0x80 <= b < 0xC2 || 0xF5 <= b
  }

  lemma FeedThree(a: seq<Byte>, b: seq<Byte>, c: seq<Byte>, x: string, y: string, z: string, s: State)
    requires Feed(INITIAL, a) == (x, INITIAL) && Feed(INITIAL, b) == (y, s)
    requires Valid(s) && Feed(s, c) == (z, INITIAL)
    ensures Feed(INITIAL, a + b + c) == (x + y + z, INITIAL)
  {
    FeedAppend(INITIAL, a, b);
    FeedAppend(INITIAL, a + b, c);
  }

  /** A stray byte between characters is replaced by one replacement character and touches neither neighbour. */
  lemma StrayByteIsReplaced(before: string, b: Byte, after: string)
    requires IsStray(b)
    ensures Feed(INITIAL, Encode(before) + [b] + Encode(after)) == (before + [REPLACEMENT] + after, INITIAL)
  {
    FeedOfEncode(before);
    FeedOfEncode(after);
    FeedOne(INITIAL, b);
    FeedThree(Encode(before), [b], Encode(after), before, [REPLACEMENT], after, INITIAL);
  }

  /** The first bytes of a character bring nothing out and leave some missing. */
  lemma PrefixIsSilent(c: char, k: nat)
    requires 0 < k < |EncodeChar(c)|
    ensures Feed(INITIAL, EncodeChar(c)[..k]).0 == "" && Feed(INITIAL, EncodeChar(c)[..k]).1.missing > 0
  {
    var bytes, n := EncodeChar(c), c as int;
    var s := Step(INITIAL, bytes[0]).1;
    assert bytes[..1] == [bytes[0]];
    FeedOne(INITIAL, bytes[0]);
    if k >= 2 {
      assert bytes[..2] == [bytes[0]] + [bytes[1]];
      SilentByte(INITIAL, bytes[0], [bytes[1]]);
      FeedOne(s, bytes[1]);
      if |bytes| == 3 {
        SecondOfThree(c);
      } else {
        SecondOfFour(c);
        if k == 3 {
          ThirdIsSilent(bytes, s, c);
        }
      }
    }
  }

  lemma ThirdIsSilent(bytes: seq<Byte>, s: State, c: char)
    requires |bytes| == 4 && bytes == EncodeChar(c) && Step(INITIAL, bytes[0]) == ("", s)
    requires Valid(s) && Step(s, bytes[1]) == ("", State(2, 0x80, 0xBF, c as int / 4096))
    ensures Feed(INITIAL, bytes[..3]).0 == "" && Feed(INITIAL, bytes[..3]).1.missing > 0
  {
    var t := State(2, 0x80, 0xBF, c as int / 4096);
    assert bytes[..3] == [bytes[0]] + ([bytes[1]] + [bytes[2]]);
    SilentByte(INITIAL, bytes[0], [bytes[1]] + [bytes[2]]);
    SilentByte(s, bytes[1], [bytes[2]]);
    FeedOne(t, bytes[2]);
  }

  /** With bytes missing, one that does not continue the character gives up on it and counts afresh. */
  lemma GivesUp(s: State, bytes: seq<Byte>)
    requires Valid(s) && s.missing > 0 && bytes != [] && !IsContinuation(bytes[0])
    ensures Feed(s, bytes) == ([REPLACEMENT] + Feed(INITIAL, bytes).0, Feed(INITIAL, bytes).1)
  {
    var first, rest := bytes[0], bytes[1..];
    HeadAndTail(bytes);
    FeedOne(s, first);
    FeedOne(INITIAL, first);
    FeedAppend(s, [first], rest);
    FeedAppend(INITIAL, [first], rest);
    Regroup([REPLACEMENT], Lead(first).0, Feed(Lead(first).1, rest).0);
  }

  lemma {:induction false} StartsNoContinuation(text: string)
    requires text != ""
    ensures Encode(text) != [] && !IsContinuation(Encode(text)[0])
  {
    var front, c := text[..|text| - 1], text[|text| - 1];
    FirstOctet(c);
    if front == "" {
      assert Encode(text) == [] + EncodeChar(c);
    } else {
      StartsNoContinuation(front);
    }
  }

  lemma EmptyBetween(a: string, b: string, c: string)
    ensures a + "" + (b + c) == a + b + c
  {
  }

  lemma GivenUpBetween(a: seq<Byte>, cut: seq<Byte>, c: seq<Byte>, before: string, s: State, after: string)
    requires Feed(INITIAL, a) == (before, INITIAL) && Feed(INITIAL, c) == (after, INITIAL)
    requires Feed(INITIAL, cut) == ("", s) && Valid(s) && s.missing > 0 && c != [] && !IsContinuation(c[0])
    ensures Feed(INITIAL, a + cut + c) == (before + [REPLACEMENT] + after, INITIAL)
  {
    GivesUp(s, c);
    FeedThree(a, cut, c, before, "", [REPLACEMENT] + after, s);
    EmptyBetween(before, [REPLACEMENT], after);
  }

  /** A character cut short before another one becomes one replacement character; what follows is read in full. */
  lemma BrokenCharacterIsReplaced(before: string, c: char, k: nat, after: string)
    requires 0 < k < |EncodeChar(c)| && after != ""
    ensures Feed(INITIAL, Encode(before) + EncodeChar(c)[..k] + Encode(after))
         == (before + [REPLACEMENT] + after, INITIAL)
  {
    FeedOfEncode(before);
    FeedOfEncode(after);
    PrefixIsSilent(c, k);
    StartsNoContinuation(after);
    GivenUpBetween(Encode(before), EncodeChar(c)[..k], Encode(after), before,
                   Feed(INITIAL, EncodeChar(c)[..k]).1, after);
  }
}
