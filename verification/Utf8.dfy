/**
 * UTF-8 (section 3 of RFC 3629): the encoder, and the streaming decoder that the socket server keeps
 * per connection (packages/electrobun-qa/src/host/socket-server.ts).
 */
module Utf8 {
  import opened Sequences

  type Byte = b: int | 0 <= b < 256

  const REPLACEMENT: char := '\U{FFFD}'
  const BYTE_ORDER_MARK: char := '\U{FEFF}'

  // ----- encoding -----

  function EncodeChar(c: char): seq<Byte> {
    var n := c as int;
    if n < 0x80 then [n]
    else if n < 0x800 then [0xC0 + n / 64, 0x80 + n % 64]
    else if n < 0x1_0000 then [0xE0 + n / 4096, 0x80 + n / 64 % 64, 0x80 + n % 64]
    else [0xF0 + n / 262144, 0x80 + n / 4096 % 64, 0x80 + n / 64 % 64, 0x80 + n % 64]
  }

  function Encode(s: string): seq<Byte> {
    if s == "" then [] else Encode(s[..|s| - 1]) + EncodeChar(s[|s| - 1])
  }

  // ----- the decoder, one byte at a time -----

  /** How many bytes are still to come, the bounds of the next one, and the code point so far. */
  datatype State = State(missing: nat, lower: int, upper: int, point: int)

  const INITIAL: State := State(0, 0x80, 0xBF, 0)

  /** No surrogate and nothing beyond the last code point between the two bounds. */
  predicate AllScalar(low: int, high: int) {
    0 <= low && (high < 0xD800 || (0xE000 <= low && high < 0x11_0000))
  }

  /** Whatever allowed bytes follow, the code point will be a scalar value. */
  ghost predicate Valid(s: State) {
    var low := s.point * 64 + (s.lower - 0x80);
    var high := s.point * 64 + (s.upper - 0x80);
    && 0x80 <= s.lower <= s.upper <= 0xBF
    && match s.missing
       case 0 => s == INITIAL
       case 1 => AllScalar(low, high) && s.lower == 0x80 && s.upper == 0xBF
       case 2 => AllScalar(low * 64, high * 64 + 63)
       case 3 => AllScalar(low * 4096, high * 4096 + 4095)
       case _ => false
  }

  /** A byte met between characters. */
  function Lead(b: Byte): (r: (string, State))
    ensures Valid(r.1)
  {
    if b < 0x80 then ([b as char], INITIAL)
    else if 0xC2 <= b <= 0xDF then ("", State(1, 0x80, 0xBF, b - 0xC0))
    else if 0xE0 <= b <= 0xEF then
      ("", State(2, if b == 0xE0 then 0xA0 else 0x80, if b == 0xED then 0x9F else 0xBF, b - 0xE0))
    else if 0xF0 <= b <= 0xF4 then
      ("", State(3, if b == 0xF0 then 0x90 else 0x80, if b == 0xF4 then 0x8F else 0xBF, b - 0xF0))
    else ([REPLACEMENT], INITIAL)
  }

  /** A byte that cannot continue the character is an error, and is read again as a lead byte. */
  function Step(s: State, b: Byte): (r: (string, State))
    requires Valid(s)
    ensures Valid(r.1)
  {
    if s.missing == 0 then Lead(b)
    else if !(s.lower <= b <= s.upper) then ([REPLACEMENT] + Lead(b).0, Lead(b).1)
    else
      var point := s.point * 64 + (b - 0x80);
      if s.missing == 1 then ([point as char], INITIAL) else ("", State(s.missing - 1, 0x80, 0xBF, point))
  }

  function Feed(s: State, bytes: seq<Byte>): (r: (string, State))
    requires Valid(s)
    ensures Valid(r.1)
  {
    if bytes == [] then ("", s)
    else
      var (text, before) := Feed(s, bytes[..|bytes| - 1]);
      var (more, after) := Step(before, bytes[|bytes| - 1]);
      (text + more, after)
  }

  // ----- the stream: a leading byte order mark is dropped -----

  /** `started` once the first character has come out. */
  datatype Stream = Stream(state: State, started: bool)

  const START: Stream := Stream(INITIAL, false)

  function DropMark(text: string): string {
    if text != "" && text[0] == BYTE_ORDER_MARK then text[1..] else text
  }

  /** One call of the decoder in streaming mode. */
  function DecodeChunk(s: Stream, chunk: seq<Byte>): (r: (string, Stream))
    requires Valid(s.state)
    ensures Valid(r.1.state)
  {
    var (text, state) := Feed(s.state, chunk);
    if s.started then (text, Stream(state, true)) else (DropMark(text), Stream(state, text != ""))
  }

  // ----- chunks do not matter -----

  lemma {:induction false} FeedAppend(s: State, a: seq<Byte>, b: seq<Byte>)
    requires Valid(s)
    ensures Feed(s, a + b) == (Feed(s, a).0 + Feed(Feed(s, a).1, b).0, Feed(Feed(s, a).1, b).1)
  {
    if b == [] {
      assert a + b == a && Feed(s, a).0 + "" == Feed(s, a).0;
    } else {
      var before := b[..|b| - 1];
      FeedAppend(s, a, before);
      assert (a + b)[..|a + b| - 1] == a + before;
      Regroup(Feed(s, a).0, Feed(Feed(s, a).1, before).0, Step(Feed(Feed(s, a).1, before).1, b[|b| - 1]).0);
    }
  }

  lemma DropMarkAppend(a: string, b: string)
    ensures DropMark(a + b) == if a == "" then DropMark(b) else DropMark(a) + b
  {
    if a == "" {
      assert a + b == b;
    } else {
      assert (a + b)[0] == a[0] && (a + b)[1..] == a[1..] + b;
    }
  }

  /** Two chunks decode like the one they make up, a character cut between them included. */
  lemma ChunksDoNotMatter(s: Stream, a: seq<Byte>, b: seq<Byte>)
    requires Valid(s.state)
    ensures DecodeChunk(s, a + b)
         == (DecodeChunk(s, a).0 + DecodeChunk(DecodeChunk(s, a).1, b).0, DecodeChunk(DecodeChunk(s, a).1, b).1)
  {
    var first := Feed(s.state, a).0;
    var second := Feed(Feed(s.state, a).1, b).0;
    FeedAppend(s.state, a, b);
    DropMarkAppend(first, second);
    assert first == "" ==> DropMark(first) + DropMark(second) == DropMark(second);
  }

  // ----- decoding what was encoded -----

  lemma FeedOne(s: State, b: Byte)
    requires Valid(s)
    ensures Feed(s, [b]) == Step(s, b)
  {
    assert [b][..0] == [] && "" + Step(s, b).0 == Step(s, b).0;
  }

  /** A byte that brings out nothing only moves the state. */
  lemma SilentByte(s: State, b: Byte, rest: seq<Byte>)
    requires Valid(s) && Step(s, b).0 == ""
    ensures Feed(s, [b] + rest) == Feed(Step(s, b).1, rest)
  {
    FeedOne(s, b);
    FeedAppend(s, [b], rest);
    var text := Feed(Step(s, b).1, rest).0;
    assert "" + text == text;
  }

  lemma OneByte(c: char)
    requires c as int < 0x80
    ensures Feed(INITIAL, EncodeChar(c)) == ([c], INITIAL)
  {
    FeedOne(INITIAL, c as int);
  }

  lemma LastByte(s: State, c: char)
    requires Valid(s) && s.missing == 1 && s.point == c as int / 64
    ensures Feed(s, [0x80 + c as int % 64]) == ([c], INITIAL)
  {
    FeedOne(s, 0x80 + c as int % 64);
  }

  lemma LastTwoBytes(s: State, c: char)
    requires Valid(s) && s.missing == 2 && s.point == c as int / 4096
    requires s.lower <= 0x80 + c as int / 64 % 64 <= s.upper
    ensures Feed(s, [0x80 + c as int / 64 % 64, 0x80 + c as int % 64]) == ([c], INITIAL)
  {
    var b, last := 0x80 + c as int / 64 % 64, 0x80 + c as int % 64;
    DivideTwice(c as int);
    MiddleByte(s, c as int / 64, c as int / 4096);
    SilentByte(s, b, [last]);
    assert [b] + [last] == [b, last];
    LastByte(Step(s, b).1, c);
  }

  lemma MiddleByte(s: State, point: nat, front: nat)
    requires Valid(s) && s.missing == 2 && s.point == front == point / 64
    requires s.lower <= 0x80 + point % 64 <= s.upper
    ensures Step(s, 0x80 + point % 64) == ("", State(1, 0x80, 0xBF, point))
  {
    PointGrows(point);
  }

  lemma DivideTwice(n: nat)
    ensures n / 64 / 64 == n / 4096
  {
  }

  lemma PointGrows(n: nat)
    ensures n / 64 * 64 + n % 64 == n
  {
  }

  lemma TwoBytes(c: char)
    requires 0x80 <= c as int < 0x800
    ensures Feed(INITIAL, EncodeChar(c)) == ([c], INITIAL)
  {
    var a, b := 0xC0 + c as int / 64, 0x80 + c as int % 64;
    SilentByte(INITIAL, a, [b]);
    assert [a] + [b] == [a, b];
    LastByte(Step(INITIAL, a).1, c);
  }

  lemma ThreeBytes(c: char)
    requires 0x800 <= c as int < 0x1_0000
    ensures Feed(INITIAL, EncodeChar(c)) == ([c], INITIAL)
  {
    var n := c as int;
    var a, b, d := 0xE0 + n / 4096, 0x80 + n / 64 % 64, 0x80 + n % 64;
    SilentByte(INITIAL, a, [b, d]);
    assert [a] + [b, d] == [a, b, d];
    SecondOfThree(c);
    LastTwoBytes(Step(INITIAL, a).1, c);
  }

  lemma SecondOfThree(c: char)
    requires 0x800 <= c as int < 0x1_0000
    ensures var s := Step(INITIAL, 0xE0 + c as int / 4096).1;
      s.missing == 2 && s.point == c as int / 4096 && s.lower <= 0x80 + c as int / 64 % 64 <= s.upper
  {
  }

  lemma FourBytes(c: char)
    requires 0x1_0000 <= c as int
    ensures Feed(INITIAL, EncodeChar(c)) == ([c], INITIAL)
  {
    var n := c as int;
    var a, b, d, e := 0xF0 + n / 262144, 0x80 + n / 4096 % 64, 0x80 + n / 64 % 64, 0x80 + n % 64;
    SecondOfFour(c);
    var s := Step(INITIAL, a).1;
    var t := State(2, 0x80, 0xBF, n / 4096);
    LastTwoBytes(t, c);
    TwoSilent(a, b, d, e, s, t, c);
  }

  lemma TwoSilent(a: Byte, b: Byte, d: Byte, e: Byte, s: State, t: State, c: char)
    requires Step(INITIAL, a) == ("", s) && Step(s, b) == ("", t) && Feed(t, [d, e]) == ([c], INITIAL)
    ensures Feed(INITIAL, [a, b, d, e]) == ([c], INITIAL)
  {
    SilentThen(s, b, t, [d, e], c);
    SilentThen(INITIAL, a, s, [b] + [d, e], c);
    assert [a] + ([b] + [d, e]) == [a, b, d, e];
  }

  lemma SilentThen(s: State, b: Byte, t: State, rest: seq<Byte>, c: char)
    requires Valid(s) && Step(s, b) == ("", t) && Feed(t, rest) == ([c], INITIAL)
    ensures Feed(s, [b] + rest) == ([c], INITIAL)
  {
    SilentByte(s, b, rest);
  }

  lemma SecondOfFour(c: char)
    requires 0x1_0000 <= c as int
    ensures var s := Step(INITIAL, 0xF0 + c as int / 262144).1;
      && s.missing == 3 && s.point == c as int / 262144 && s.lower <= 0x80 + c as int / 4096 % 64 <= s.upper
      && Step(s, 0x80 + c as int / 4096 % 64) == ("", State(2, 0x80, 0xBF, c as int / 4096))
  {
    PointGrows(c as int / 4096);
    assert c as int / 4096 / 64 == c as int / 262144;
  }

  lemma CharRoundTrip(c: char)
    ensures Feed(INITIAL, EncodeChar(c)) == ([c], INITIAL)
  {
    if c as int < 0x80 {
      OneByte(c);
    } else if c as int < 0x800 {
      TwoBytes(c);
    } else if c as int < 0x1_0000 {
      ThreeBytes(c);
    } else {
      FourBytes(c);
    }
  }

  lemma {:induction false} FeedOfEncode(s: string)
    ensures Feed(INITIAL, Encode(s)) == (s, INITIAL)
  {
    if s == "" {
    } else {
      var before, c := s[..|s| - 1], s[|s| - 1];
      FeedOfEncode(before);
      FeedOfSnoc(before, c);
      EncodeLast(s);
      InitAndLast(s);
    }
  }

  lemma EncodeLast(s: string)
    requires s != ""
    ensures Encode(s) == Encode(s[..|s| - 1]) + EncodeChar(s[|s| - 1])
  {
  }

  lemma FeedOfSnoc(before: string, c: char)
    requires Feed(INITIAL, Encode(before)) == (before, INITIAL)
    ensures Feed(INITIAL, Encode(before) + EncodeChar(c)) == (before + [c], INITIAL)
  {
    CharRoundTrip(c);
    FeedOneMore(Encode(before), before, EncodeChar(c), c);
  }

  lemma FeedOneMore(before: seq<Byte>, text: string, last: seq<Byte>, c: char)
    requires Feed(INITIAL, before) == (text, INITIAL) && Feed(INITIAL, last) == ([c], INITIAL)
    ensures Feed(INITIAL, before + last) == (text + [c], INITIAL)
  {
    FeedAppend(INITIAL, before, last);
  }

  /** Decoding gives the text back, short of a leading byte order mark. */
  lemma DecodeOfEncode(s: string)
    ensures DecodeChunk(START, Encode(s)).0 == DropMark(s)
    ensures DecodeChunk(START, Encode(s)).0 == s <==> s == "" || s[0] != BYTE_ORDER_MARK
  {
    FeedOfEncode(s);
    assert s != "" ==> |s[1..]| != |s|;
  }
}
