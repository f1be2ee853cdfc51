/** How far a hunk reaches in any text, and what its lines contribute (packages/contracts/src/gitHunks.ts). */
module GitHunkReading {
  import opened Sequences
  import opened GitHunks
  import opened GitHunkParser

  /** What a line adds to the old side: removed, kept and empty lines; anything else adds nothing. */
  function OldPart(line: string): seq<string> {
    if line == "" then [""] else if line[0] == '-' || line[0] == ' ' then [line[1..]] else []
  }

  function NewPart(line: string): seq<string> {
    if line == "" then [""] else if line[0] == '+' || line[0] == ' ' then [line[1..]] else []
  }

  function OldParts(lines: seq<string>): seq<string> {
    if lines == [] then [] else OldPart(lines[0]) + OldParts(lines[1..])
  }

  function NewParts(lines: seq<string>): seq<string> {
    if lines == [] then [] else NewPart(lines[0]) + NewParts(lines[1..])
  }

  /** Some side, of which `before` is already read, is still short of its count. */
  predicate Short(header: Header, oldBefore: nat, newBefore: nat, lines: seq<string>) {
    oldBefore + |OldParts(lines)| < header.oldCount || newBefore + |NewParts(lines)| < header.newCount
  }

  /**
   * The body is the first `k` lines: none of them a header, each needed when it is read, and after them
   * the text ends, a header comes or both sides are full.
   */
  ghost predicate BodyEndsAt(lines: seq<string>, header: Header, oldBefore: nat, newBefore: nat, k: nat) {
    && k <= |lines|
    && (forall j :: 0 <= j < k ==> !IsHeader(lines[j]) && Short(header, oldBefore, newBefore, lines[..j]))
    && (k == |lines| || IsHeader(lines[k]) || !Short(header, oldBefore, newBefore, lines[..k]))
  }

  ghost predicate ReadsTo(lines: seq<string>, header: Header, oldLines: seq<string>, newLines: seq<string>, k: nat) {
    && BodyEndsAt(lines, header, |oldLines|, |newLines|, k)
    && ReadBody(lines, header, oldLines, newLines)
       == Body(oldLines + OldParts(lines[..k]), newLines + NewParts(lines[..k]), lines[k..])
  }

  lemma NothingRead(lines: seq<string>, header: Header, oldLines: seq<string>, newLines: seq<string>)
    requires lines == [] || IsHeader(lines[0]) || (|oldLines| >= header.oldCount && |newLines| >= header.newCount)
    ensures ReadsTo(lines, header, oldLines, newLines, 0)
  {
    assert lines[..0] == [] && oldLines + [] == oldLines && newLines + [] == newLines;
  }

  lemma PartsOfCons(line: string, lines: seq<string>)
    ensures OldParts([line] + lines) == OldPart(line) + OldParts(lines)
    ensures NewParts([line] + lines) == NewPart(line) + NewParts(lines)
  {
    assert ([line] + lines)[1..] == lines;
  }

  lemma BodyEndsBehind(line: string, rest: seq<string>, header: Header, oldBefore: nat, newBefore: nat, k: nat)
    requires !IsHeader(line) && (oldBefore < header.oldCount || newBefore < header.newCount)
    requires BodyEndsAt(rest, header, oldBefore + |OldPart(line)|, newBefore + |NewPart(line)|, k)
    ensures BodyEndsAt([line] + rest, header, oldBefore, newBefore, k + 1)
  {
    var lines := [line] + rest;
    forall j | 0 <= j < k + 1 ensures !IsHeader(lines[j]) && Short(header, oldBefore, newBefore, lines[..j]) {
      if j > 0 {
        PartsOfCons(line, rest[..j - 1]);
        assert lines[..j] == [line] + rest[..j - 1];
      }
    }
    PartsOfCons(line, rest[..k]);
    assert lines[..k + 1] == [line] + rest[..k];
  }

  lemma OneLineRead(line: string, rest: seq<string>, header: Header, oldLines: seq<string>, newLines: seq<string>)
    requires !IsHeader(line) && (|oldLines| < header.oldCount || |newLines| < header.newCount)
    ensures ReadBody([line] + rest, header, oldLines, newLines)
         == ReadBody(rest, header, oldLines + OldPart(line), newLines + NewPart(line))
  {
    var lines := [line] + rest;
    assert lines[0..] == lines && lines[1..] == rest;
    ReadBodyUnfolds(lines, 0, header, oldLines, newLines);
    NothingAdded(oldLines);
    NothingAdded(newLines);
  }

  lemma NothingAdded(lines: seq<string>)
    ensures lines + [] == lines
  {
  }

  lemma ReadsBehind(
    line: string, rest: seq<string>, header: Header, oldLines: seq<string>, newLines: seq<string>, k: nat)
    requires !IsHeader(line) && (|oldLines| < header.oldCount || |newLines| < header.newCount)
    requires ReadsTo(rest, header, oldLines + OldPart(line), newLines + NewPart(line), k)
    ensures ReadsTo([line] + rest, header, oldLines, newLines, k + 1)
  {
    BodyEndsBehind(line, rest, header, |oldLines|, |newLines|, k);
    OneLineRead(line, rest, header, oldLines, newLines);
    PartsOfCons(line, rest[..k]);
    assert ([line] + rest)[..k + 1] == [line] + rest[..k] && ([line] + rest)[k + 1..] == rest[k..];
    Regroup(oldLines, OldPart(line), OldParts(rest[..k]));
    Regroup(newLines, NewPart(line), NewParts(rest[..k]));
  }

  lemma {:induction false} ReadsSomewhere(
    lines: seq<string>, header: Header, oldLines: seq<string>, newLines: seq<string>) returns (k: nat)
    ensures ReadsTo(lines, header, oldLines, newLines, k)
  {
    if lines == [] || IsHeader(lines[0]) || (|oldLines| >= header.oldCount && |newLines| >= header.newCount) {
      NothingRead(lines, header, oldLines, newLines);
      k := 0;
    } else {
      var before := ReadsSomewhere(
        lines[1..], header, oldLines + OldPart(lines[0]), newLines + NewPart(lines[0]));
      ReadsBehind(lines[0], lines[1..], header, oldLines, newLines, before);
      HeadAndTail(lines);
      k := before + 1;
    }
  }

  /** The lines of a hunk and its two sides, for every text and every counts in the header. */
  lemma ReadBodyMeaning(lines: seq<string>, header: Header) returns (k: nat)
    ensures BodyEndsAt(lines, header, 0, 0, k)
    ensures ReadBody(lines, header, [], []) == Body(OldParts(lines[..k]), NewParts(lines[..k]), lines[k..])
  {
    k := ReadsSomewhere(lines, header, [], []);
    assert [] + OldParts(lines[..k]) == OldParts(lines[..k]) && [] + NewParts(lines[..k]) == NewParts(lines[..k]);
  }

  /** There is only one such end. */
  lemma OneBodyEnd(lines: seq<string>, header: Header, oldBefore: nat, newBefore: nat, j: nat, k: nat)
    requires BodyEndsAt(lines, header, oldBefore, newBefore, j) && BodyEndsAt(lines, header, oldBefore, newBefore, k)
    ensures j == k
  {
  }
}
