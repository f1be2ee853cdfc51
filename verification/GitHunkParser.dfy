/**
 * Reading a unified patch (parseUnifiedHunks in packages/contracts/src/gitHunks.ts) and printing
 * one in the format of POSIX.1-2017, utility diff, "Diff -u or -U Output Format".
 */
module GitHunkParser {
  import opened Wrappers
  import opened Decimal
  import opened Lines
  import opened Sequences
  import opened GitHunks

  // ----- the hunk header -----

  datatype Header = Header(oldStart: nat, oldCount: nat, newStart: nat, newCount: nat)

  function DigitRun(s: string): (n: nat)
    ensures n <= |s| && AllDigits(s[..n])
    ensures n < |s| ==> !IsDigit(s[n])
  {
    if s == "" || !IsDigit(s[0]) then 0
    else
      var n := DigitRun(s[1..]);
      assert s[..n + 1] == [s[0]] + s[1..][..n];
      n + 1
  }

  /** `(\d+)`: the number and the text behind it. */
  function Number(s: string): Option<(nat, string)> {
    var n := DigitRun(s);
    if n == 0 then None else Some((Value(s[..n]), s[n..]))
  }

  /** `(?:,(\d+))?` with an absent count read as 1. */
  function Count(s: string): (nat, string) {
    if s != "" && s[0] == ',' then
      match Number(s[1..])
      case Some(found) => found
      case None => (1, s)
    else (1, s)
  }

  function Literal(expected: string, s: string): Option<string> {
    if expected <= s then Some(s[|expected|..]) else None
  }

  /** `^@@ -(\d+)(?:,(\d+))? \+(\d+)(?:,(\d+))? @@` */
  function MatchHeader(line: string): Option<Header> {
    var s0 :- Literal("@@ -", line);
    var (oldStart, s1) :- Number(s0);
    var (oldCount, s2) := Count(s1);
    var s3 :- Literal(" +", s2);
    var (newStart, s4) :- Number(s3);
    var (newCount, s5) := Count(s4);
    var _ :- Literal(" @@", s5);
    Some(Header(oldStart, oldCount, newStart, newCount))
  }

  predicate IsHeader(line: string) {
    MatchHeader(line).Some?
  }

  // ----- reading -----

  datatype Body = Body(oldLines: seq<string>, newLines: seq<string>, rest: seq<string>)

  predicate StartsWith(line: string, c: char) {
    line != "" && line[0] == c
  }

  /** The lines of one hunk; `rest` starts with the first line that does not belong to it. */
  function ReadBody(lines: seq<string>, header: Header, oldLines: seq<string>, newLines: seq<string>): (b: Body)
    ensures |b.rest| <= |lines|
  {
    if lines == [] || (|oldLines| >= header.oldCount && |newLines| >= header.newCount) || IsHeader(lines[0]) then
      Body(oldLines, newLines, lines)
    else
      var body := lines[0];
      if StartsWith(body, '\\') then
        ReadBody(lines[1..], header, oldLines, newLines)
      else if StartsWith(body, '+') then
        ReadBody(lines[1..], header, oldLines, newLines + [body[1..]])
      else if StartsWith(body, '-') then
        ReadBody(lines[1..], header, oldLines + [body[1..]], newLines)
      else if StartsWith(body, ' ') || body == "" then
        var text := if StartsWith(body, ' ') then body[1..] else body;
        ReadBody(lines[1..], header, oldLines + [text], newLines + [text])
      else
        ReadBody(lines[1..], header, oldLines, newLines)
  }

  function MakeHunk(index: nat, h: Header, oldLines: seq<string>, newLines: seq<string>): Hunk {
    Hunk(index, h.oldStart, h.oldCount, h.newStart, h.newCount, oldLines, newLines)
  }

  function ReadHunks(lines: seq<string>, index: nat): seq<Hunk>
    decreases |lines|
  {
    if lines == [] then []
    else
      match MatchHeader(lines[0])
      case None => ReadHunks(lines[1..], index)
      case Some(h) =>
        var b := ReadBody(lines[1..], h, [], []);
        [MakeHunk(index, h, b.oldLines, b.newLines)] + ReadHunks(b.rest, index + 1)
  }

  lemma ReadBodyUnfolds(lines: seq<string>, cursor: nat, header: Header, oldLines: seq<string>, newLines: seq<string>)
    requires cursor < |lines| && (|oldLines| < header.oldCount || |newLines| < header.newCount)
    requires !IsHeader(lines[cursor])
    ensures var body := lines[cursor];
      var rest := lines[cursor + 1..];
      ReadBody(lines[cursor..], header, oldLines, newLines)
      == if StartsWith(body, '\\') then ReadBody(rest, header, oldLines, newLines)
         else if StartsWith(body, '+') then ReadBody(rest, header, oldLines, newLines + [body[1..]])
         else if StartsWith(body, '-') then ReadBody(rest, header, oldLines + [body[1..]], newLines)
         else if StartsWith(body, ' ') then ReadBody(rest, header, oldLines + [body[1..]], newLines + [body[1..]])
         else if body == "" then ReadBody(rest, header, oldLines + [body], newLines + [body])
         else ReadBody(rest, header, oldLines, newLines)
  {
    assert lines[cursor..][1..] == lines[cursor + 1..];
  }

  /** The inner loop of parseUnifiedHunks: the cursor stops behind the hunk. */
  method ReadOneHunk(lines: seq<string>, start: nat, header: Header)
    returns (oldLines: seq<string>, newLines: seq<string>, cursor: nat)
    requires start <= |lines|
    ensures start <= cursor <= |lines|
    ensures ReadBody(lines[start..], header, [], []) == Body(oldLines, newLines, lines[cursor..])
  {
    oldLines, newLines, cursor := [], [], start;
    var oldSeen, newSeen := 0, 0;
    while cursor < |lines| && (oldSeen < header.oldCount || newSeen < header.newCount)
      invariant start <= cursor <= |lines|
      invariant oldSeen == |oldLines| && newSeen == |newLines|
      invariant ReadBody(lines[cursor..], header, oldLines, newLines) == ReadBody(lines[start..], header, [], [])
    {
      var body := lines[cursor];
      if IsHeader(body) {
        break;
      }
      ReadBodyUnfolds(lines, cursor, header, oldLines, newLines);
      if StartsWith(body, '\\') {
        cursor := cursor + 1;
        continue;
      }
      if StartsWith(body, '+') {
        newLines, newSeen, cursor := newLines + [body[1..]], newSeen + 1, cursor + 1;
        continue;
      }
      if StartsWith(body, '-') {
        oldLines, oldSeen, cursor := oldLines + [body[1..]], oldSeen + 1, cursor + 1;
        continue;
      }
      if StartsWith(body, ' ') || body == "" {
        var text := if StartsWith(body, ' ') then body[1..] else body;
        oldLines, newLines := oldLines + [text], newLines + [text];
        oldSeen, newSeen, cursor := oldSeen + 1, newSeen + 1, cursor + 1;
        continue;
      }
      cursor := cursor + 1;
    }
  }

  lemma ReadHunksUnfolds(lines: seq<string>, cursor: nat, index: nat)
    requires cursor < |lines|
    ensures MatchHeader(lines[cursor]).None? ==>
      ReadHunks(lines[cursor..], index) == ReadHunks(lines[cursor + 1..], index)
    ensures MatchHeader(lines[cursor]).Some? ==>
      var h := MatchHeader(lines[cursor]).value;
      var b := ReadBody(lines[cursor + 1..], h, [], []);
      ReadHunks(lines[cursor..], index) == [MakeHunk(index, h, b.oldLines, b.newLines)] + ReadHunks(b.rest, index + 1)
  {
    assert lines[cursor..][1..] == lines[cursor + 1..];
  }

  lemma {:induction false} HunksAreNumbered(lines: seq<string>, index: nat)
    ensures forall i :: 0 <= i < |ReadHunks(lines, index)| ==> ReadHunks(lines, index)[i].index == index + i
    decreases |lines|
  {
    if lines == [] {
    } else if MatchHeader(lines[0]).None? {
      HunksAreNumbered(lines[1..], index);
    } else {
      var b := ReadBody(lines[1..], MatchHeader(lines[0]).value, [], []);
      HunksAreNumbered(b.rest, index + 1);
    }
  }

  /** The cursor loop of parseUnifiedHunks; it ends on every input. */
  method ParseUnifiedHunks(patch: string) returns (hunks: seq<Hunk>)
    ensures hunks == ReadHunks(Split(patch), 0)
    ensures forall i :: 0 <= i < |hunks| ==> hunks[i].index == i
  {
    var lines := Split(patch);
    hunks := [];
    var index, cursor := 0, 0;
    while cursor < |lines|
      invariant 0 <= cursor <= |lines|
      invariant hunks + ReadHunks(lines[cursor..], index) == ReadHunks(lines, 0)
    {
      var found := MatchHeader(lines[cursor]);
      ReadHunksUnfolds(lines, cursor, index);
      if found.None? {
        cursor := cursor + 1;
        continue;
      }
      var oldLines, newLines, end := ReadOneHunk(lines, cursor + 1, found.value);
      var hunk := MakeHunk(index, found.value, oldLines, newLines);
      Regroup(hunks, [hunk], ReadHunks(lines[end..], index + 1));
      hunks := hunks + [hunk];
      index, cursor := index + 1, end;
    }
    HunksAreNumbered(lines, 0);
  }

  // ----- printing -----

  datatype BodyLine =
    | Context(text: string)
    | BlankContext
    | Removed(text: string)
    | Added(text: string)
    | NoNewline(note: string)

  function PrintBodyLine(line: BodyLine): string {
    match line
    case Context(text) => " " + text
    case BlankContext => ""
    case Removed(text) => "-" + text
    case Added(text) => "+" + text
    case NoNewline(note) => "\\" + note
  }

  function OldSide(body: seq<BodyLine>): seq<string> {
    if body == [] then []
    else
      (match body[0]
       case Context(text) => [text]
       case BlankContext => [""]
       case Removed(text) => [text]
       case Added(_) => []
       case NoNewline(_) => [])
      + OldSide(body[1..])
  }

  function NewSide(body: seq<BodyLine>): seq<string> {
    if body == [] then []
    else
      (match body[0]
       case Context(text) => [text]
       case BlankContext => [""]
       case Removed(_) => []
       case Added(text) => [text]
       case NoNewline(_) => [])
      + NewSide(body[1..])
  }

  /**
   * One printed hunk. A count of 1 may be left out; `heading` is the text behind the second `@@`;
   * `after` are the lines up to the next hunk, such as a trailing no-newline marker or the
   * header of the next file.
   */
  datatype PrintedHunk = PrintedHunk(
    oldStart: nat,
    newStart: nat,
    body: seq<BodyLine>,
    omitOldCount: bool,
    omitNewCount: bool,
    heading: string,
    after: seq<string>)

  function PrintCount(n: nat, omit: bool): string {
    if omit && n == 1 then "" else "," + Render(n)
  }

  function PrintHeader(h: Header, omitOldCount: bool, omitNewCount: bool, heading: string): string {
    "@@ -" + (Render(h.oldStart) + (PrintCount(h.oldCount, omitOldCount)
    + (" +" + (Render(h.newStart) + (PrintCount(h.newCount, omitNewCount)
    + (" @@" + heading))))))
  }

  function HeaderOf(p: PrintedHunk): Header {
    Header(p.oldStart, |OldSide(p.body)|, p.newStart, |NewSide(p.body)|)
  }

  function PrintBody(body: seq<BodyLine>): seq<string> {
    if body == [] then [] else [PrintBodyLine(body[0])] + PrintBody(body[1..])
  }

  function PrintHunk(p: PrintedHunk): seq<string> {
    [PrintHeader(HeaderOf(p), p.omitOldCount, p.omitNewCount, p.heading)] + PrintBody(p.body) + p.after
  }

  function PrintHunks(ps: seq<PrintedHunk>): seq<string> {
    if ps == [] then [] else PrintHunk(ps[0]) + PrintHunks(ps[1..])
  }

  /** The patch text: any lines in front that are not hunk headers, then the hunks. */
  function PrintPatch(preamble: seq<string>, ps: seq<PrintedHunk>): string {
    Join(preamble + PrintHunks(ps))
  }

  function HunksOf(ps: seq<PrintedHunk>, index: nat): seq<Hunk> {
    if ps == [] then []
    else [MakeHunk(index, HeaderOf(ps[0]), OldSide(ps[0].body), NewSide(ps[0].body))] + HunksOf(ps[1..], index + 1)
  }

  ghost predicate NoHeaders(lines: seq<string>) {
    forall i :: 0 <= i < |lines| ==> !IsHeader(lines[i]) && '\n' !in lines[i]
  }

  ghost predicate Printable(p: PrintedHunk) {
    && (forall i :: 0 <= i < |p.body| ==> '\n' !in PrintBodyLine(p.body[i]))
    && (p.body != [] ==> !p.body[|p.body| - 1].NoNewline?)
    && '\n' !in p.heading
    && NoHeaders(p.after)
  }

  // ----- reading what was printed: the header -----

  lemma {:induction false} DigitRunStops(digits: string, s: string)
    requires AllDigits(digits) && (s != "" ==> !IsDigit(s[0]))
    ensures DigitRun(digits + s) == |digits|
  {
    if digits == "" {
      assert digits + s == s;
    } else {
      assert (digits + s)[1..] == digits[1..] + s;
      DigitRunStops(digits[1..], s);
    }
  }

  lemma NumberOfRender(n: nat, s: string)
    requires s != "" ==> !IsDigit(s[0])
    ensures Number(Render(n) + s) == Some((n, s))
  {
    ValueOfRender(n);
    DigitRunStops(Render(n), s);
    assert (Render(n) + s)[..|Render(n)|] == Render(n);
    assert (Render(n) + s)[|Render(n)|..] == s;
  }

  lemma CountOfPrint(n: nat, omit: bool, s: string)
    requires s != "" && !IsDigit(s[0]) && s[0] != ','
    ensures Count(PrintCount(n, omit) + s) == (n, s)
  {
    if omit && n == 1 {
      assert "" + s == s;
    } else {
      var t := "," + Render(n) + s;
      assert t[1..] == Render(n) + s;
      NumberOfRender(n, s);
    }
  }

  lemma LiteralOfPrint(expected: string, s: string)
    ensures Literal(expected, expected + s) == Some(s)
  {
    assert (expected + s)[|expected|..] == s;
  }

  lemma NumberThenCount(n: nat, c: nat, omit: bool, s: string)
    requires s != "" && !IsDigit(s[0]) && s[0] != ','
    ensures Number(Render(n) + (PrintCount(c, omit) + s)) == Some((n, PrintCount(c, omit) + s))
    ensures Count(PrintCount(c, omit) + s) == (c, s)
  {
    CountOfPrint(c, omit, s);
    NumberOfRender(n, PrintCount(c, omit) + s);
  }

  lemma MatchOfPrintedHeader(h: Header, omitOldCount: bool, omitNewCount: bool, heading: string)
    ensures MatchHeader(PrintHeader(h, omitOldCount, omitNewCount, heading)) == Some(h)
  {
    var t5 := " @@" + heading;
    var t3 := Render(h.newStart) + (PrintCount(h.newCount, omitNewCount) + t5);
    var t2 := " +" + t3;
    var t0 := Render(h.oldStart) + (PrintCount(h.oldCount, omitOldCount) + t2);
    LiteralOfPrint("@@ -", t0);
    NumberThenCount(h.oldStart, h.oldCount, omitOldCount, t2);
    LiteralOfPrint(" +", t3);
    NumberThenCount(h.newStart, h.newCount, omitNewCount, t5);
    LiteralOfPrint(" @@", heading);
  }

  // ----- what a header match means, for every line -----

  /** The digit strings and the free text of a header line. */
  datatype HeaderText = HeaderText(
    oldStart: string, oldCount: Option<string>, newStart: string, newCount: Option<string>, heading: string)

  predicate IsNumeral(digits: string) {
    digits != "" && AllDigits(digits)
  }

  predicate IsNumerals(t: HeaderText) {
    && IsNumeral(t.oldStart) && (t.oldCount.Some? ==> IsNumeral(t.oldCount.value))
    && IsNumeral(t.newStart) && (t.newCount.Some? ==> IsNumeral(t.newCount.value))
  }

  function SpellCount(count: Option<string>): string {
    if count.Some? then "," + count.value else ""
  }

  function Spell(t: HeaderText): string {
    "@@ -" + (t.oldStart + (SpellCount(t.oldCount)
    + (" +" + (t.newStart + (SpellCount(t.newCount)
    + (" @@" + t.heading))))))
  }

  function CountValue(count: Option<string>): nat
    requires count.Some? ==> AllDigits(count.value)
  {
    if count.Some? then Value(count.value) else 1
  }

  function Meant(t: HeaderText): Header
    requires IsNumerals(t)
  {
    Header(Value(t.oldStart), CountValue(t.oldCount), Value(t.newStart), CountValue(t.newCount))
  }

  lemma NumberOfDigits(digits: string, s: string)
    requires IsNumeral(digits) && (s != "" ==> !IsDigit(s[0]))
    ensures Number(digits + s) == Some((Value(digits), s))
  {
    DigitRunStops(digits, s);
    assert (digits + s)[..|digits|] == digits;
    assert (digits + s)[|digits|..] == s;
  }

  lemma CountOfSpelled(count: Option<string>, s: string)
    requires (count.Some? ==> IsNumeral(count.value)) && s != "" && !IsDigit(s[0]) && s[0] != ','
    ensures Count(SpellCount(count) + s) == (CountValue(count), s)
  {
    if count.Some? {
      assert ("," + count.value + s)[1..] == count.value + s;
      NumberOfDigits(count.value, s);
    } else {
      assert "" + s == s;
    }
  }

  lemma SpelledHeaderMatches(t: HeaderText)
    requires IsNumerals(t)
    ensures MatchHeader(Spell(t)) == Some(Meant(t))
  {
    var s5 := " @@" + t.heading;
    var s3 := t.newStart + (SpellCount(t.newCount) + s5);
    var s2 := " +" + s3;
    var s0 := t.oldStart + (SpellCount(t.oldCount) + s2);
    LiteralOfPrint("@@ -", s0);
    NumberOfDigits(t.oldStart, SpellCount(t.oldCount) + s2);
    CountOfSpelled(t.oldCount, s2);
    LiteralOfPrint(" +", s3);
    NumberOfDigits(t.newStart, SpellCount(t.newCount) + s5);
    CountOfSpelled(t.newCount, s5);
    LiteralOfPrint(" @@", t.heading);
  }

  lemma NumberSplits(s: string) returns (digits: string, rest: string)
    requires Number(s).Some?
    ensures IsNumeral(digits) && s == digits + rest && Number(s) == Some((Value(digits), rest))
  {
    digits, rest := s[..DigitRun(s)], s[DigitRun(s)..];
  }

  lemma CountSplits(s: string) returns (count: Option<string>, rest: string)
    ensures count.Some? ==> IsNumeral(count.value)
    ensures s == SpellCount(count) + rest && Count(s) == (CountValue(count), rest)
  {
    count, rest := None, s;
    if s != "" && s[0] == ',' && Number(s[1..]).Some? {
      var digits;
      digits, rest := NumberSplits(s[1..]);
      count := Some(digits);
      assert s == [','] + s[1..];
    }
  }

  lemma LiteralSplits(expected: string, s: string)
    requires Literal(expected, s).Some?
    ensures s == expected + Literal(expected, s).value
  {
  }

  /** Every matching line is a header spelled out, with nothing in it but its four numbers and free text. */
  lemma MatchedHeaderIsSpelled(line: string) returns (t: HeaderText)
    requires IsHeader(line)
    ensures IsNumerals(t) && Spell(t) == line && MatchHeader(line) == Some(Meant(t))
  {
    var s0 := Literal("@@ -", line).value;
    LiteralSplits("@@ -", line);
    var oldStart, s1 := NumberSplits(s0);
    var oldCount, s2 := CountSplits(s1);
    var s3 := Literal(" +", s2).value;
    LiteralSplits(" +", s2);
    var newStart, s4 := NumberSplits(s3);
    var newCount, s5 := CountSplits(s4);
    var heading := Literal(" @@", s5).value;
    LiteralSplits(" @@", s5);
    t := HeaderText(oldStart, oldCount, newStart, newCount, heading);
  }

  // ----- reading what was printed: the body -----

  /** A body that is not over does contribute to one of the sides. */
  lemma {:induction false} BodyHasSides(body: seq<BodyLine>)
    requires body != [] && !body[|body| - 1].NoNewline?
    ensures |OldSide(body)| + |NewSide(body)| > 0
  {
    if |body| <= 1 {
    } else {
      BodyHasSides(body[1..]);
    }
  }

  /** One turn of the inner loop, with the line's contribution to each side given. */
  lemma ReadStep(
    body: string, rest: seq<string>, header: Header, oldLines: seq<string>, newLines: seq<string>)
    requires |oldLines| < header.oldCount || |newLines| < header.newCount
    requires body == "" || body[0] in {' ', '+', '-', '\\'}
    ensures ReadBody([body] + rest, header, oldLines, newLines) ==
            if body == "" then ReadBody(rest, header, oldLines + [""], newLines + [""])
            else if body[0] == '\\' then ReadBody(rest, header, oldLines, newLines)
            else if body[0] == '+' then ReadBody(rest, header, oldLines, newLines + [body[1..]])
            else if body[0] == '-' then ReadBody(rest, header, oldLines + [body[1..]], newLines)
            else ReadBody(rest, header, oldLines + [body[1..]], newLines + [body[1..]])
  {
    assert ([body] + rest)[1..] == rest;
    assert !IsHeader(body) by {
      assert !("@@ -" <= body);
    }
  }

  lemma SidesOfOne(line: BodyLine)
    ensures OldSide([line]) ==
      if line.Added? || line.NoNewline? then [] else if line.BlankContext? then [""] else [line.text]
    ensures NewSide([line]) ==
      if line.Removed? || line.NoNewline? then [] else if line.BlankContext? then [""] else [line.text]
  {
    assert [line][1..] == [];
  }

  lemma PrintedText(line: BodyLine)
    requires !line.BlankContext? && !line.NoNewline?
    ensures PrintBodyLine(line) != "" && PrintBodyLine(line)[1..] == line.text
  {
  }

  lemma ReadOfPrintedLine(
    line: BodyLine, rest: seq<string>, header: Header, oldLines: seq<string>, newLines: seq<string>)
    requires |oldLines| < header.oldCount || |newLines| < header.newCount
    ensures ReadBody([PrintBodyLine(line)] + rest, header, oldLines, newLines)
         == ReadBody(rest, header, oldLines + OldSide([line]), newLines + NewSide([line]))
  {
    SidesOfOne(line);
    assert oldLines + [] == oldLines && newLines + [] == newLines;
    ReadStep(PrintBodyLine(line), rest, header, oldLines, newLines);
    if !line.BlankContext? && !line.NoNewline? {
      PrintedText(line);
    }
  }

  lemma SidesOfCons(line: BodyLine, body: seq<BodyLine>)
    ensures OldSide([line] + body) == OldSide([line]) + OldSide(body)
    ensures NewSide([line] + body) == NewSide([line]) + NewSide(body)
  {
    assert ([line] + body)[1..] == body;
    assert [line][1..] == [];
  }

  lemma ReadOfPrintedBodyCons(
    line: BodyLine, tail: seq<BodyLine>, rest: seq<string>, header: Header,
    oldLines: seq<string>, newLines: seq<string>)
    requires |oldLines| < header.oldCount || |newLines| < header.newCount
    ensures ReadBody(PrintBody([line] + tail) + rest, header, oldLines, newLines)
         == ReadBody(PrintBody(tail) + rest, header, oldLines + OldSide([line]), newLines + NewSide([line]))
  {
    assert ([line] + tail)[1..] == tail;
    assert PrintBody([line] + tail) + rest == [PrintBodyLine(line)] + (PrintBody(tail) + rest);
    ReadOfPrintedLine(line, PrintBody(tail) + rest, header, oldLines, newLines);
  }

  lemma FullBodyStops(rest: seq<string>, header: Header, oldLines: seq<string>, newLines: seq<string>)
    requires |oldLines| >= header.oldCount && |newLines| >= header.newCount
    ensures ReadBody(rest, header, oldLines, newLines) == Body(oldLines + [], newLines + [], rest)
  {
    assert oldLines + [] == oldLines && newLines + [] == newLines;
  }

  lemma {:induction false} ReadOfPrintedBody(
    body: seq<BodyLine>, rest: seq<string>, header: Header, oldLines: seq<string>, newLines: seq<string>)
    requires body != [] ==> !body[|body| - 1].NoNewline?
    requires header.oldCount == |oldLines| + |OldSide(body)|
    requires header.newCount == |newLines| + |NewSide(body)|
    ensures ReadBody(PrintBody(body) + rest, header, oldLines, newLines)
         == Body(oldLines + OldSide(body), newLines + NewSide(body), rest)
  {
    if body == [] {
      assert PrintBody(body) + rest == rest;
      FullBodyStops(rest, header, oldLines, newLines);
    } else {
      var line, tail := body[0], body[1..];
      BodyHasSides(body);
      assert body == [line] + tail;
      SidesOfCons(line, tail);
      ReadOfPrintedBody(tail, rest, header, oldLines + OldSide([line]), newLines + NewSide([line]));
      ReadOfPrintedBodyStep(line, tail, rest, header, oldLines, newLines);
    }
  }

  lemma ReadOfPrintedBodyStep(
    line: BodyLine, tail: seq<BodyLine>, rest: seq<string>, header: Header,
    oldLines: seq<string>, newLines: seq<string>)
    requires |oldLines| < header.oldCount || |newLines| < header.newCount
    requires ReadBody(PrintBody(tail) + rest, header, oldLines + OldSide([line]), newLines + NewSide([line]))
          == Body(oldLines + OldSide([line]) + OldSide(tail), newLines + NewSide([line]) + NewSide(tail), rest)
    ensures ReadBody(PrintBody([line] + tail) + rest, header, oldLines, newLines)
         == Body(oldLines + OldSide([line] + tail), newLines + NewSide([line] + tail), rest)
  {
    ReadOfPrintedBodyCons(line, tail, rest, header, oldLines, newLines);
    SidesOfCons(line, tail);
    Regroup(oldLines, OldSide([line]), OldSide(tail));
    Regroup(newLines, NewSide([line]), NewSide(tail));
  }

  // ----- reading what was printed: the patch -----

  lemma {:induction false} ReadSkips(skipped: seq<string>, lines: seq<string>, index: nat)
    requires NoHeaders(skipped)
    ensures ReadHunks(skipped + lines, index) == ReadHunks(lines, index)
  {
    if skipped == [] {
      assert skipped + lines == lines;
    } else {
      assert (skipped + lines)[1..] == skipped[1..] + lines;
      ReadSkips(skipped[1..], lines, index);
    }
  }

  lemma ReadAtHeader(line: string, header: Header, lines: seq<string>, index: nat)
    requires MatchHeader(line) == Some(header)
    ensures var b := ReadBody(lines, header, [], []);
            && ReadHunks([line] + lines, index)
            == [MakeHunk(index, header, b.oldLines, b.newLines)] + ReadHunks(b.rest, index + 1)
  {
    assert ([line] + lines)[1..] == lines;
  }

  lemma ReadAtPrintedHeader(p: PrintedHunk, rest: seq<string>, index: nat)
    ensures var line := PrintHeader(HeaderOf(p), p.omitOldCount, p.omitNewCount, p.heading);
            var b := ReadBody(rest, HeaderOf(p), [], []);
            && ReadHunks([line] + rest, index)
            == [MakeHunk(index, HeaderOf(p), b.oldLines, b.newLines)] + ReadHunks(b.rest, index + 1)
  {
    MatchOfPrintedHeader(HeaderOf(p), p.omitOldCount, p.omitNewCount, p.heading);
    ReadAtHeader(PrintHeader(HeaderOf(p), p.omitOldCount, p.omitNewCount, p.heading), HeaderOf(p), rest, index);
  }

  lemma ReadOfWholeBody(p: PrintedHunk, rest: seq<string>)
    requires Printable(p)
    ensures ReadBody(PrintBody(p.body) + rest, HeaderOf(p), [], []) == Body(OldSide(p.body), NewSide(p.body), rest)
  {
    ReadOfPrintedBody(p.body, rest, HeaderOf(p), [], []);
    assert [] + OldSide(p.body) == OldSide(p.body) && [] + NewSide(p.body) == NewSide(p.body);
  }

  lemma ReadOfPrintedHunk(p: PrintedHunk, lines: seq<string>, index: nat)
    requires Printable(p)
    ensures ReadHunks(PrintHunk(p) + lines, index)
         == [MakeHunk(index, HeaderOf(p), OldSide(p.body), NewSide(p.body))] + ReadHunks(lines, index + 1)
  {
    var line := PrintHeader(HeaderOf(p), p.omitOldCount, p.omitNewCount, p.heading);
    var rest := PrintBody(p.body) + (p.after + lines);
    assert PrintHunk(p) + lines == [line] + rest;
    ReadAtPrintedHeader(p, rest, index);
    ReadOfWholeBody(p, p.after + lines);
    ReadSkips(p.after, lines, index + 1);
  }

  lemma {:induction false} ReadOfPrintedHunks(ps: seq<PrintedHunk>, index: nat)
    requires forall i :: 0 <= i < |ps| ==> Printable(ps[i])
    ensures ReadHunks(PrintHunks(ps), index) == HunksOf(ps, index)
  {
    if ps == [] {
    } else {
      ReadOfPrintedHunk(ps[0], PrintHunks(ps[1..]), index);
      ReadOfPrintedHunks(ps[1..], index + 1);
    }
  }

  lemma RenderHasNoNewline(n: nat)
    ensures '\n' !in Render(n)
  {
    ValueOfRender(n);
  }

  lemma PrintedHunkIsNewlineFree(p: PrintedHunk)
    requires Printable(p)
    ensures NewlineFree(PrintHunk(p))
  {
    var h := HeaderOf(p);
    RenderHasNoNewline(h.oldStart);
    RenderHasNoNewline(h.oldCount);
    RenderHasNoNewline(h.newStart);
    RenderHasNoNewline(h.newCount);
    PrintBodyAt(p.body);
  }

  lemma {:induction false} PrintBodyAt(body: seq<BodyLine>)
    ensures |PrintBody(body)| == |body|
    ensures forall i :: 0 <= i < |body| ==> PrintBody(body)[i] == PrintBodyLine(body[i])
  {
    if body == [] {
    } else {
      PrintBodyAt(body[1..]);
    }
  }

  lemma {:induction false} PrintedHunksAreNewlineFree(ps: seq<PrintedHunk>)
    requires forall i :: 0 <= i < |ps| ==> Printable(ps[i])
    ensures NewlineFree(PrintHunks(ps))
  {
    if ps == [] {
    } else {
      PrintedHunkIsNewlineFree(ps[0]);
      PrintedHunksAreNewlineFree(ps[1..]);
    }
  }

  lemma NothingPrinted(ps: seq<PrintedHunk>)
    ensures PrintHunks(ps) == [] <==> ps == []
  {
    if ps != [] {
      assert |PrintHunk(ps[0])| > 0;
    }
  }

  lemma EmptyPatch(index: nat)
    ensures ReadHunks(Split(""), index) == []
  {
    assert !("@@ -" <= "");
    assert Split("") == [""] && [""][1..] == [];
  }

  /** Parsing a printed patch gives back its hunks, numbered by position. */
  lemma ParseOfPrint(preamble: seq<string>, ps: seq<PrintedHunk>)
    requires NoHeaders(preamble)
    requires forall i :: 0 <= i < |ps| ==> Printable(ps[i])
    ensures ReadHunks(Split(PrintPatch(preamble, ps)), 0) == HunksOf(ps, 0)
  {
    var lines := preamble + PrintHunks(ps);
    NothingPrinted(ps);
    if lines == [] {
      EmptyPatch(0);
    } else {
      PrintedHunksAreNewlineFree(ps);
      SplitOfJoin(lines);
      ReadSkips(preamble, PrintHunks(ps), 0);
      ReadOfPrintedHunks(ps, 0);
    }
  }

  // ----- every consistent hunk list can be printed -----

  ghost predicate Consistent(hunks: seq<Hunk>, index: nat) {
    forall i :: 0 <= i < |hunks| ==>
      && hunks[i].index == index + i
      && |hunks[i].oldLines| == hunks[i].oldCount
      && |hunks[i].newLines| == hunks[i].newCount
      && NewlineFree(hunks[i].oldLines)
      && NewlineFree(hunks[i].newLines)
  }

  function RemovedThenAdded(oldLines: seq<string>, newLines: seq<string>): seq<BodyLine> {
    if oldLines != [] then [Removed(oldLines[0])] + RemovedThenAdded(oldLines[1..], newLines)
    else if newLines != [] then [Added(newLines[0])] + RemovedThenAdded([], newLines[1..])
    else []
  }

  function PlainPrintOne(h: Hunk): PrintedHunk {
    PrintedHunk(h.oldStart, h.newStart, RemovedThenAdded(h.oldLines, h.newLines), true, true, "", [])
  }

  function PlainPrint(hunks: seq<Hunk>): seq<PrintedHunk> {
    if hunks == [] then [] else [PlainPrintOne(hunks[0])] + PlainPrint(hunks[1..])
  }

  /** A printed body with these sides, no note and no line break. */
  ghost predicate PlainBody(body: seq<BodyLine>, oldLines: seq<string>, newLines: seq<string>) {
    && OldSide(body) == oldLines
    && NewSide(body) == newLines
    && forall i :: 0 <= i < |body| ==> !body[i].NoNewline? && '\n' !in PrintBodyLine(body[i])
  }

  lemma PlainBodyOfCons(line: BodyLine, body: seq<BodyLine>, oldLines: seq<string>, newLines: seq<string>)
    requires PlainBody(body, oldLines, newLines)
    requires (line.Removed? || line.Added?) && '\n' !in line.text
    ensures line.Removed? ==> PlainBody([line] + body, [line.text] + oldLines, newLines)
    ensures line.Added? ==> PlainBody([line] + body, oldLines, [line.text] + newLines)
  {
    SidesOfCons(line, body);
    forall i | 0 <= i < |[line] + body|
      ensures !([line] + body)[i].NoNewline? && '\n' !in PrintBodyLine(([line] + body)[i])
    {
      assert i > 0 ==> ([line] + body)[i] == body[i - 1];
    }
  }

  lemma NewlineFreeParts(lines: seq<string>)
    requires NewlineFree(lines) && lines != []
    ensures '\n' !in lines[0] && NewlineFree(lines[1..])
  {
  }

  lemma {:induction false} SidesOfPlainBody(oldLines: seq<string>, newLines: seq<string>)
    requires NewlineFree(oldLines) && NewlineFree(newLines)
    ensures PlainBody(RemovedThenAdded(oldLines, newLines), oldLines, newLines)
    decreases |oldLines| + |newLines|
  {
    if oldLines != [] {
      NewlineFreeParts(oldLines);
      SidesOfPlainBody(oldLines[1..], newLines);
      PlainBodyOfCons(Removed(oldLines[0]), RemovedThenAdded(oldLines[1..], newLines), oldLines[1..], newLines);
      HeadAndTail(oldLines);
    } else if newLines != [] {
      NewlineFreeParts(newLines);
      SidesOfPlainBody([], newLines[1..]);
      PlainBodyOfCons(Added(newLines[0]), RemovedThenAdded([], newLines[1..]), [], newLines[1..]);
      HeadAndTail(newLines);
    }
  }

  lemma PlainPrintOneIsFaithful(h: Hunk, index: nat)
    requires Consistent([h], index)
    ensures var p := PlainPrintOne(h);
            Printable(p) && MakeHunk(index, HeaderOf(p), OldSide(p.body), NewSide(p.body)) == h
  {
    assert [h][0] == h;
    SidesOfPlainBody(h.oldLines, h.newLines);
  }

  lemma {:induction false} PlainPrintAt(hunks: seq<Hunk>, i: nat)
    requires i < |hunks|
    ensures |PlainPrint(hunks)| == |hunks| && PlainPrint(hunks)[i] == PlainPrintOne(hunks[i])
  {
    if |hunks| > 1 {
      PlainPrintAt(hunks[1..], if i == 0 then 0 else i - 1);
    } else {
      assert PlainPrint(hunks[1..]) == [];
    }
  }

  lemma HunksOfCons(p: PrintedHunk, ps: seq<PrintedHunk>, index: nat)
    ensures HunksOf([p] + ps, index)
         == [MakeHunk(index, HeaderOf(p), OldSide(p.body), NewSide(p.body))] + HunksOf(ps, index + 1)
  {
    assert ([p] + ps)[1..] == ps;
  }

  lemma {:induction false} PlainPrintReads(hunks: seq<Hunk>, index: nat)
    requires Consistent(hunks, index)
    ensures HunksOf(PlainPrint(hunks), index) == hunks
  {
    if hunks == [] {
    } else {
      ConsistentParts(hunks, index);
      PlainPrintOneIsFaithful(hunks[0], index);
      PlainPrintReads(hunks[1..], index + 1);
      HunksOfCons(PlainPrintOne(hunks[0]), PlainPrint(hunks[1..]), index);
      HeadAndTail(hunks);
    }
  }

  lemma PlainPrintIsFaithful(hunks: seq<Hunk>, index: nat)
    requires Consistent(hunks, index)
    ensures forall i :: 0 <= i < |PlainPrint(hunks)| ==> Printable(PlainPrint(hunks)[i])
    ensures HunksOf(PlainPrint(hunks), index) == hunks
  {
    PlainPrintReads(hunks, index);
    assert hunks == [] ==> PlainPrint(hunks) == [];
    forall i | 0 <= i < |PlainPrint(hunks)| ensures Printable(PlainPrint(hunks)[i]) {
      if hunks != [] {
        PlainPrintAt(hunks, 0);
      }
      PlainPrintAt(hunks, i);
      assert Consistent([hunks[i]], index + i);
      PlainPrintOneIsFaithful(hunks[i], index + i);
    }
  }

  lemma ConsistentParts(hunks: seq<Hunk>, index: nat)
    requires Consistent(hunks, index) && hunks != []
    ensures Consistent([hunks[0]], index) && Consistent(hunks[1..], index + 1)
  {
    var rest := hunks[1..];
    forall i | 0 <= i < |rest| ensures rest[i] == hunks[i + 1] {
    }
  }

  /** Printing any consistent hunk list and parsing it returns the same list. */
  lemma PrintThenParse(hunks: seq<Hunk>)
    requires Consistent(hunks, 0)
    ensures ReadHunks(Split(PrintPatch([], PlainPrint(hunks))), 0) == hunks
  {
    PlainPrintIsFaithful(hunks, 0);
    ParseOfPrint([], PlainPrint(hunks));
  }

  // ----- what holds of every input -----

  lemma {:induction false} ReadBodyIsNewlineFree(
    lines: seq<string>, header: Header, oldLines: seq<string>, newLines: seq<string>)
    requires NewlineFree(lines) && NewlineFree(oldLines) && NewlineFree(newLines)
    ensures var b := ReadBody(lines, header, oldLines, newLines);
            NewlineFree(b.oldLines) && NewlineFree(b.newLines) && NewlineFree(b.rest)
  {
    if lines == [] || (|oldLines| >= header.oldCount && |newLines| >= header.newCount) || IsHeader(lines[0]) {
    } else {
      var body := lines[0];
      if StartsWith(body, '\\') {
        ReadBodyIsNewlineFree(lines[1..], header, oldLines, newLines);
      } else if StartsWith(body, '+') {
        ReadBodyIsNewlineFree(lines[1..], header, oldLines, newLines + [body[1..]]);
      } else if StartsWith(body, '-') {
        ReadBodyIsNewlineFree(lines[1..], header, oldLines + [body[1..]], newLines);
      } else if StartsWith(body, ' ') || body == "" {
        var text := if StartsWith(body, ' ') then body[1..] else body;
        ReadBodyIsNewlineFree(lines[1..], header, oldLines + [text], newLines + [text]);
      } else {
        ReadBodyIsNewlineFree(lines[1..], header, oldLines, newLines);
      }
    }
  }

  /** A parsed hunk never holds a line break, so splicing it cannot change how lines are counted. */
  lemma {:induction false} ParsedHunksAreNewlineFree(lines: seq<string>, index: nat)
    requires NewlineFree(lines)
    ensures forall h :: h in ReadHunks(lines, index) ==> NewlineFree(h.oldLines) && NewlineFree(h.newLines)
    decreases |lines|
  {
    if lines == [] {
    } else {
      match MatchHeader(lines[0])
      case None =>
        ParsedHunksAreNewlineFree(lines[1..], index);
      case Some(h) =>
        ReadBodyIsNewlineFree(lines[1..], h, [], []);
        ParsedHunksAreNewlineFree(ReadBody(lines[1..], h, [], []).rest, index + 1);
    }
  }
}
