/** Byte framing on the QA socket (packages/electrobun-qa/src/host/socket-server.ts). */
module SocketFraming {
  import opened Wrappers
  import opened Lines
  import opened Sequences
  import opened Utf8

  // ----- the code: outbound -----

  /** `bytes.slice(start)`, where a negative start counts from the end. */
  function Slice(bytes: seq<Byte>, start: int): seq<Byte> {
    if start >= |bytes| then []
    else if start >= 0 then bytes[start..]
    else if |bytes| + start > 0 then bytes[|bytes| + start..]
    else bytes
  }

  /** What a write that answers `written` has really taken. */
  function Accepted(data: seq<Byte>, written: int): seq<Byte> {
    if written <= 0 then [] else if written >= |data| then data else data[..written]
  }

  /** The bytes the peer has been given, and those held back for it. */
  datatype Outbound = Outbound(taken: seq<Byte>, pending: seq<Byte>)

  function Flushed(o: Outbound, written: int): Outbound {
    if o.pending == [] then o
    else
      Outbound(o.taken + Accepted(o.pending, written),
               if written >= |o.pending| then [] else Slice(o.pending, written))
  }

  function Queued(o: Outbound, line: string): Outbound {
    o.(pending := o.pending + Encode(line))
  }

  /** The operating system's end: it takes as much as it likes and says how much. */
  class Socket {
    var taken: seq<Byte>

    constructor ()
      ensures taken == []
    {
      taken := [];
    }

    method Write(data: seq<Byte>, answer: int) returns (written: int)
      modifies this
      ensures taken == old(taken) + Accepted(data, answer) && written == answer
      ensures |taken| == |old(taken)| + (if answer <= 0 then 0 else if answer >= |data| then |data| else answer)
      ensures old(taken) <= taken && taken[|old(taken)|..] <= data
    {
      taken := taken + Accepted(data, answer);
      written := answer;
    }
  }

  /** The server's three per-socket map entries. */
  class Connection {
    const socket: Socket
    var pendingWrite: Option<seq<Byte>>
    var buffer: Option<string>
    var decoder: Option<Stream>

    constructor (socket: Socket)
      ensures this.socket == socket
      ensures pendingWrite == None && buffer == None && decoder == None
    {
      this.socket := socket;
      pendingWrite, buffer, decoder := None, None, None;
    }

    function Outgoing(): Outbound
      reads this, socket
    {
      Outbound(socket.taken, if pendingWrite.Some? then pendingWrite.value else [])
    }

    ghost predicate Valid()
      reads this
    {
      decoder.Some? ==> Utf8.Valid(decoder.value.state)
    }

    function Incoming(): Inbound
      reads this
    {
      Inbound(if decoder.Some? then decoder.value else START, if buffer.Some? then buffer.value else "")
    }

    method FlushPending(answer: int)
      modifies this`pendingWrite, socket
      ensures Outgoing() == Flushed(old(Outgoing()), answer)
      ensures answer >= 0 ==> HandsOver(old(Outgoing()).taken, old(Outgoing()).pending, answer, Outgoing())
    {
      if answer >= 0 {
        FlushHandsOver(Outgoing(), answer);
      }
      if pendingWrite.None? || pendingWrite.value == [] {
        return;
      }
      var outstanding := pendingWrite.value;
      var written := socket.Write(outstanding, answer);
      pendingWrite := Some(if written >= |outstanding| then [] else Slice(outstanding, written));
    }

    method WriteLine(line: string, answer: int)
      modifies this`pendingWrite, socket
      ensures Outgoing() == Flushed(Queued(old(Outgoing()), line), answer)
      ensures answer >= 0 ==>
        HandsOver(old(Outgoing()).taken, old(Outgoing()).pending + Encode(line), answer, Outgoing())
    {
      var queued := if pendingWrite.Some? then pendingWrite.value else [];
      pendingWrite := Some(queued + Encode(line));
      FlushPending(answer);
    }

    /** The data callback: the lines handed to the request handler. */
    method Receive(data: seq<Byte>) returns (handed: seq<string>)
      requires Valid()
      modifies this`buffer, this`decoder
      ensures Valid()
      ensures Incoming() == Received(old(Incoming()), data).1
      ensures handed == Received(old(Incoming()), data).0
    {
      var stream := if decoder.Some? then decoder.value else START;
      var (text, next) := DecodeChunk(stream, data);
      decoder := Some(next);
      var previous := if buffer.Some? then buffer.value else "";
      var parts := Split(previous + text);
      buffer := Some(parts[|parts| - 1]);
      parts := parts[..|parts| - 1];
      handed := [];
      for i := 0 to |parts|
        invariant handed == NonEmpty(parts[..i])
      {
        assert parts[..i + 1][..i] == parts[..i];
        if |parts[i]| > 0 {
          handed := handed + [parts[i]];
        }
      }
      assert parts[..|parts|] == parts;
    }

    /** The error and close callbacks. */
    method Drop()
      modifies this
      ensures Valid() && Incoming() == Inbound(START, "") && Outgoing() == Outbound(socket.taken, [])
    {
      buffer := None;
      decoder := None;
      pendingWrite := None;
    }
  }

  // ----- the code: inbound -----

  datatype Inbound = Inbound(stream: Stream, buffer: string)

  function NonEmpty(parts: seq<string>): seq<string> {
    if parts == [] then []
    else
      NonEmpty(parts[..|parts| - 1]) + (if parts[|parts| - 1] == "" then [] else [parts[|parts| - 1]])
  }

  function Last(parts: seq<string>): string
    requires parts != []
  {
    parts[|parts| - 1]
  }

  function Received(s: Inbound, data: seq<Byte>): (seq<string>, Inbound)
    requires Utf8.Valid(s.stream.state)
  {
    var (text, next) := DecodeChunk(s.stream, data);
    var parts := Split(s.buffer + text);
    (NonEmpty(parts[..|parts| - 1]), Inbound(next, Last(parts)))
  }

  // ----- outbound: no byte is lost, repeated or reordered -----

  datatype Write = Line(line: string, answer: int) | Drain(answer: int)

  function After(o: Outbound, w: Write): Outbound {
    match w
    case Line(line, answer) => Flushed(Queued(o, line), answer)
    case Drain(answer) => Flushed(o, answer)
  }

  function RunWrites(o: Outbound, writes: seq<Write>): Outbound {
    if writes == [] then o else After(RunWrites(o, writes[..|writes| - 1]), writes[|writes| - 1])
  }

  /** All queued lines in one text. */
  function Text(writes: seq<Write>): string {
    if writes == [] then ""
    else
      var last := writes[|writes| - 1];
      Text(writes[..|writes| - 1]) + (if last.Line? then last.line else "")
  }

  function Total(o: Outbound): seq<Byte> {
    o.taken + o.pending
  }

  /** One flush keeps every byte exactly when the socket does not answer with a negative count. */
  lemma FlushConserves(o: Outbound, written: int)
    ensures Total(Flushed(o, written)) == Total(o) <==> written >= 0 || -written >= |o.pending|
  {
    if o.pending != [] {
      if 0 <= written < |o.pending| {
        assert o.pending == o.pending[..written] + o.pending[written..];
        Regroup(o.taken, o.pending[..written], o.pending[written..]);
      } else if written < 0 {
        assert o.taken + [] == o.taken;
        assert |Total(Flushed(o, written))| == |o.taken| + |Slice(o.pending, written)|;
      }
    }
  }

  /** Of the bytes held, the first `answer` have gone to the peer, or all if there are fewer; the rest is held. */
  predicate HandsOver(taken: seq<Byte>, held: seq<Byte>, answer: nat, after: Outbound) {
    var n := if answer < |held| then answer else |held|;
    after.taken == taken + held[..n] && after.pending == held[n..]
  }

  /** A flush offers the socket everything that is held and keeps just what it did not take. */
  lemma FlushHandsOver(o: Outbound, answer: nat)
    ensures HandsOver(o.taken, o.pending, answer, Flushed(o, answer))
    ensures answer >= |o.pending| ==> Flushed(o, answer) == Outbound(o.taken + o.pending, [])
  {
    if o.pending == [] {
      assert o.taken + [] == o.taken;
    }
  }

  lemma EncodeSnoc(text: string, c: char)
    ensures Encode(text + [c]) == Encode(text) + EncodeChar(c)
  {
    assert (text + [c])[..|text|] == text;
  }

  lemma {:induction false} EncodeAppend(a: string, b: string)
    ensures Encode(a + b) == Encode(a) + Encode(b)
  {
    if b == "" {
      assert a + b == a;
      assert Encode(a) + [] == Encode(a);
    } else {
      var before, last := b[..|b| - 1], b[|b| - 1];
      EncodeAppend(a, before);
      InitAndLast(b);
      EncodeSnoc(a + before, last);
      Regroup(a, before, [last]);
      Regroup(Encode(a), Encode(before), EncodeChar(last));
    }
  }

  lemma QueueAdds(o: Outbound, line: string)
    ensures Total(Queued(o, line)) == Total(o) + Encode(line)
  {
    Regroup(o.taken, o.pending, Encode(line));
  }

  /** For every schedule of partial writes, bytes taken and bytes pending are the encoding of all queued lines. */
  lemma {:induction false} WritesAreConserved(writes: seq<Write>)
    requires forall i :: 0 <= i < |writes| ==> writes[i].answer >= 0
    ensures Total(RunWrites(Outbound([], []), writes)) == Encode(Text(writes))
  {
    if writes == [] {
    } else {
      var before, last := writes[..|writes| - 1], writes[|writes| - 1];
      var o := RunWrites(Outbound([], []), before);
      WritesAreConserved(before);
      StepConserves(o, last);
      EncodeAppend(Text(before), if last.Line? then last.line else "");
    }
  }

  lemma StepConserves(o: Outbound, w: Write)
    requires w.answer >= 0
    ensures Total(After(o, w)) == Total(o) + Encode(if w.Line? then w.line else "")
  {
    match w
    case Line(line, answer) =>
      QueueAdds(o, line);
      FlushConserves(Queued(o, line), answer);
    case Drain(answer) => FlushConserves(o, answer);
  }

  /** Once nothing is pending, the peer that decodes what it got, in any chunks, has the text of all lines. */
  lemma PeerReadsEverything(writes: seq<Write>)
    requires forall i :: 0 <= i < |writes| ==> writes[i].answer >= 0
    requires RunWrites(Outbound([], []), writes).pending == []
    ensures DecodeChunk(START, RunWrites(Outbound([], []), writes).taken).0 == DropMark(Text(writes))
  {
    WritesAreConserved(writes);
    NothingPending(RunWrites(Outbound([], []), writes));
    DecodeOfEncode(Text(writes));
  }

  /** What is held when a write is offered to the socket. */
  function HeldFor(o: Outbound, w: Write): seq<Byte> {
    match w
    case Line(line, _) => o.pending + Encode(line)
    case Drain(_) => o.pending
  }

  lemma WriteHandsOver(o: Outbound, w: Write)
    requires w.answer >= 0
    ensures HandsOver(o.taken, HeldFor(o, w), w.answer, After(o, w))
  {
    match w
    case Line(line, answer) => FlushHandsOver(Queued(o, line), answer);
    case Drain(answer) => FlushHandsOver(o, answer);
  }

  /**
   * As soon as the socket takes all that is held, the peer has every line written so far, with no
   * drain to come: after such a write nothing is left, whatever the earlier answers were.
   */
  lemma CoveringWriteDelivers(writes: seq<Write>)
    requires writes != [] && forall i :: 0 <= i < |writes| ==> writes[i].answer >= 0
    requires var before := RunWrites(Outbound([], []), writes[..|writes| - 1]);
      writes[|writes| - 1].answer >= |HeldFor(before, writes[|writes| - 1])|
    ensures RunWrites(Outbound([], []), writes) == Outbound(Encode(Text(writes)), [])
    ensures DecodeChunk(START, RunWrites(Outbound([], []), writes).taken).0 == DropMark(Text(writes))
  {
    var before := RunWrites(Outbound([], []), writes[..|writes| - 1]);
    WriteHandsOver(before, writes[|writes| - 1]);
    WritesAreConserved(writes);
    NothingPending(RunWrites(Outbound([], []), writes));
    PeerReadsEverything(writes);
  }

  lemma NothingPending(o: Outbound)
    requires o.pending == []
    ensures Total(o) == o.taken
  {
  }

  // ----- inbound: chunks do not matter -----

  function Joined(chunks: seq<seq<Byte>>): seq<Byte> {
    if chunks == [] then [] else Joined(chunks[..|chunks| - 1]) + chunks[|chunks| - 1]
  }

  /** All lines handed on over a connection's chunks, and the state left. */
  function ReceiveAll(chunks: seq<seq<Byte>>): (r: (seq<string>, Inbound))
    ensures Utf8.Valid(r.1.stream.state)
  {
    if chunks == [] then ([], Inbound(START, ""))
    else
      var (handed, s) := ReceiveAll(chunks[..|chunks| - 1]);
      var (more, next) := Received(s, chunks[|chunks| - 1]);
      (handed + more, next)
  }

  lemma {:induction false} SplitAppend(a: string, b: string)
    ensures var lines := Split(a);
      Split(a + b) == lines[..|lines| - 1] + Split(Last(lines) + b)
  {
    if a == "" {
      assert a + b == b && Last(Split(a)) + b == b;
      assert [] + Split(b) == Split(b);
    } else {
      SplitAppend(a[1..], b);
      assert (a + b)[1..] == a[1..] + b;
      var rest := Split(a[1..]);
      if a[0] == '\n' {
        NewlineFirst(rest, b);
      } else {
        CharFirst(a[0], rest, b, Split(a[1..] + b));
      }
    }
  }

  lemma NewlineFirst(rest: seq<string>, b: string)
    requires rest != []
    ensures var lines := [""] + rest;
      && Last(lines) == Last(rest)
      && lines[..|lines| - 1] == [""] + rest[..|rest| - 1]
      && [""] + (rest[..|rest| - 1] + Split(Last(rest) + b)) == lines[..|lines| - 1] + Split(Last(lines) + b)
  {
  }

  lemma CharFirst(c: char, rest: seq<string>, b: string, whole: seq<string>)
    requires c != '\n' && rest != [] && whole == rest[..|rest| - 1] + Split(Last(rest) + b)
    ensures var lines := [[c] + rest[0]] + rest[1..];
      [[c] + whole[0]] + whole[1..] == lines[..|lines| - 1] + Split(Last(lines) + b)
  {
    var lines := [[c] + rest[0]] + rest[1..];
    if |rest| == 1 {
      assert ([c] + rest[0] + b)[1..] == rest[0] + b;
      assert whole == Split(rest[0] + b);
    } else {
      assert Last(lines) == Last(rest);
      assert lines[..|lines| - 1] == [[c] + rest[0]] + rest[1..|rest| - 1];
    }
  }

  lemma {:induction false} NonEmptyAppend(a: seq<string>, b: seq<string>)
    ensures NonEmpty(a + b) == NonEmpty(a) + NonEmpty(b)
  {
    if b == [] {
      assert a + b == a;
    } else {
      var before, last := b[..|b| - 1], b[|b| - 1];
      NonEmptyAppend(a, before);
      NonEmptySnoc(a + before, last);
      assert a + b == (a + before) + [last];
      Regroup(NonEmpty(a), NonEmpty(before), if last == "" then [] else [last]);
    }
  }

  lemma NonEmptySnoc(parts: seq<string>, last: string)
    ensures NonEmpty(parts + [last]) == NonEmpty(parts) + (if last == "" then [] else [last])
  {
    assert (parts + [last])[..|parts|] == parts;
  }

  /** For every chunking, what is handed on and what is left are the split of the whole stream's text. */
  lemma {:induction false} ChunkingDoesNotMatter(chunks: seq<seq<Byte>>)
    ensures var (text, stream) := DecodeChunk(START, Joined(chunks));
      var lines := Split(text);
      ReceiveAll(chunks) == (NonEmpty(lines[..|lines| - 1]), Inbound(stream, Last(lines)))
  {
    if chunks == [] {
      assert Split("") == [""];
    } else {
      var before, last := chunks[..|chunks| - 1], chunks[|chunks| - 1];
      ChunkingDoesNotMatter(before);
      ChunksDoNotMatter(START, Joined(before), last);
      var (text, stream) := DecodeChunk(START, Joined(before));
      OneMoreChunk(text, DecodeChunk(stream, last).0);
    }
  }

  lemma OneMoreChunk(text: string, more: string)
    ensures var lines := Split(text);
      var parts := Split(Last(lines) + more);
      var whole := Split(text + more);
      && NonEmpty(whole[..|whole| - 1]) == NonEmpty(lines[..|lines| - 1]) + NonEmpty(parts[..|parts| - 1])
      && Last(whole) == Last(parts)
  {
    var lines := Split(text);
    var parts := Split(Last(lines) + more);
    SplitAppend(text, more);
    LinesJoin(lines[..|lines| - 1], parts);
  }

  lemma LinesJoin(a: seq<string>, b: seq<string>)
    requires b != []
    ensures NonEmpty((a + b)[..|a + b| - 1]) == NonEmpty(a) + NonEmpty(b[..|b| - 1]) && Last(a + b) == Last(b)
  {
    NonEmptyAppend(a, b[..|b| - 1]);
    assert (a + b)[..|a + b| - 1] == a + b[..|b| - 1];
  }

  // ----- requests arrive intact -----

  /** The lines with a newline after each. */
  function Framed(lines: seq<string>): string {
    if lines == [] then "" else lines[0] + "\n" + Framed(lines[1..])
  }

  lemma {:induction false} SplitOfFramed(lines: seq<string>)
    requires NewlineFree(lines)
    ensures Split(Framed(lines)) == lines + [""]
  {
    if lines != [] {
      SplitOfFramed(lines[1..]);
      SplitOfPrepend(lines[0], Framed(lines[1..]));
      assert lines + [""] == [lines[0]] + (lines[1..] + [""]);
    } else {
      assert lines + [""] == [""];
    }
  }

  lemma {:induction false} NonEmptyKeeps(lines: seq<string>)
    requires forall i :: 0 <= i < |lines| ==> lines[i] != ""
    ensures NonEmpty(lines) == lines
  {
    if lines == [] {
    } else {
      NonEmptyKeeps(lines[..|lines| - 1]);
      assert lines == lines[..|lines| - 1] + [lines[|lines| - 1]];
    }
  }

  lemma HandedOfFramed(lines: seq<string>, chunks: seq<seq<Byte>>)
    requires NewlineFree(lines) && Joined(chunks) == Encode(Framed(lines))
    requires NoMarkFirst(Framed(lines))
    ensures ReceiveAll(chunks).0 == NonEmpty(lines) && ReceiveAll(chunks).1.buffer == ""
  {
    ChunkingDoesNotMatter(chunks);
    DecodeOfEncode(Framed(lines));
    SplitOfFramed(lines);
    assert (lines + [""])[..|lines|] == lines;
  }

  lemma EmptyLineHandsNothing(a: seq<string>, b: seq<string>)
    ensures NonEmpty(a + [""] + b) == NonEmpty(a + b)
  {
    NonEmptyAppend(a + [""], b);
    NonEmptySnoc(a, "");
    NonEmptyAppend(a, b);
    assert NonEmpty(a) + [] == NonEmpty(a);
  }

  ghost predicate NoMarkFirst(text: string) {
    text == "" || text[0] != BYTE_ORDER_MARK
  }

  lemma EmptyLineBringsNoMark(a: seq<string>, b: seq<string>)
    requires NoMarkFirst(Framed(a + b))
    ensures NoMarkFirst(Framed(a + [""] + b))
  {
    if a == [] {
      assert a + [""] + b == [""] + b;
      assert Framed([""] + b)[0] == '\n';
    } else {
      assert (a + b)[0] == a[0] == (a + [""] + b)[0];
      assert Framed(a + b)[0] == (a[0] + "\n")[0] == Framed(a + [""] + b)[0];
    }
  }

  /** An empty line anywhere in the stream is passed over: what is handed on is the same without it. */
  lemma EmptyLineIsPassedOver(a: seq<string>, b: seq<string>, with: seq<seq<Byte>>, without: seq<seq<Byte>>)
    requires NewlineFree(a) && NewlineFree(b)
    requires Joined(with) == Encode(Framed(a + [""] + b)) && Joined(without) == Encode(Framed(a + b))
    requires NoMarkFirst(Framed(a + b))
    ensures ReceiveAll(with).0 == ReceiveAll(without).0
    ensures ReceiveAll(with).1.buffer == "" == ReceiveAll(without).1.buffer
  {
    EmptyLineBringsNoMark(a, b);
    HandedOfFramed(a + [""] + b, with);
    HandedOfFramed(a + b, without);
    EmptyLineHandsNothing(a, b);
  }

  /** Non-empty lines without newlines, sent in UTF-8 and cut anywhere, are handed on one by one, nothing left over. */
  lemma RequestsArriveIntact(lines: seq<string>, chunks: seq<seq<Byte>>)
    requires NewlineFree(lines) && forall i :: 0 <= i < |lines| ==> lines[i] != ""
    requires Joined(chunks) == Encode(Framed(lines))
    requires lines == [] || lines[0][0] != BYTE_ORDER_MARK
    ensures ReceiveAll(chunks).0 == lines && ReceiveAll(chunks).1.buffer == ""
  {
    ChunkingDoesNotMatter(chunks);
    DecodeOfEncode(Framed(lines));
    assert lines != [] ==> Framed(lines)[0] == lines[0][0];
    SplitOfFramed(lines);
    assert (lines + [""])[..|lines|] == lines;
    NonEmptyKeeps(lines);
  }

  lemma DropFromFramed(first: string, rest: seq<string>)
    requires first != "" && first[0] == BYTE_ORDER_MARK
    ensures DropMark(Framed([first] + rest)) == Framed([first[1..]] + rest)
  {
    assert ([first] + rest)[1..] == rest && ([first[1..]] + rest)[1..] == rest;
    assert (first + "\n" + Framed(rest))[1..] == first[1..] + "\n" + Framed(rest);
  }

  lemma ShortenedIsFree(first: string, rest: seq<string>)
    requires first != "" && '\n' !in first && NewlineFree(rest)
    ensures NewlineFree([first[1..]] + rest)
  {
    var kept := [first[1..]] + rest;
    forall i | 0 <= i < |kept| ensures '\n' !in kept[i] {
      if i > 0 {
        assert kept[i] == rest[i - 1];
      }
    }
  }

  lemma ShortenedKeeps(first: string, rest: seq<string>)
    requires first != "" && forall i :: 0 <= i < |rest| ==> rest[i] != ""
    ensures NonEmpty([first[1..]] + rest) == NonEmpty([first[1..]]) + rest
  {
    NonEmptyAppend([first[1..]], rest);
    NonEmptyKeeps(rest);
  }

  lemma NonEmptyOne(line: string)
    ensures NonEmpty([line]) == if line == "" then [] else [line]
  {
    assert [line][..0] == [] && [] + [line] == [line];
  }

  lemma ShorterDiffers(first: string, rest: seq<string>)
    requires first != ""
    ensures NonEmpty([first[1..]]) + rest != [first] + rest
  {
    var short := NonEmpty([first[1..]]);
    NonEmptyOne(first[1..]);
    assert |first[1..]| != |first|;
    if short == [] {
      assert |short + rest| != |[first] + rest|;
    } else {
      assert (short + rest)[0] == first[1..] && ([first] + rest)[0] == first;
    }
  }

  /** A byte order mark at the head of the first line is swallowed. */
  lemma LeadingMarkIsLost(first: string, rest: seq<string>, chunks: seq<seq<Byte>>)
    requires '\n' !in first && NewlineFree(rest) && forall i :: 0 <= i < |rest| ==> rest[i] != ""
    requires first != "" && first[0] == BYTE_ORDER_MARK
    requires Joined(chunks) == Encode(Framed([first] + rest))
    ensures ReceiveAll(chunks).0 == NonEmpty([first[1..]]) + rest && ReceiveAll(chunks).0 != [first] + rest
  {
    var kept := [first[1..]] + rest;
    ChunkingDoesNotMatter(chunks);
    DecodeOfEncode(Framed([first] + rest));
    DropFromFramed(first, rest);
    ShortenedIsFree(first, rest);
    ShortenedKeeps(first, rest);
    SplitOfFramed(kept);
    assert (kept + [""])[..|kept|] == kept;
    ShorterDiffers(first, rest);
  }
}
