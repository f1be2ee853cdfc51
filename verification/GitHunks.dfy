/**
 * Applying and reverting unified-diff hunks on lists of lines
 * (packages/contracts/src/gitHunks.ts). The format is the one of POSIX.1-2017,
 * utility diff, "Diff -u or -U Output Format".
 */
module GitHunks {
  import opened Sequences
  import opened StableSort

  datatype Hunk = Hunk(
    index: nat,
    oldStart: nat,
    oldCount: nat,
    newStart: nat,
    newCount: nat,
    oldLines: seq<string>,
    newLines: seq<string>)

  // ----- the code -----

  function Take(lines: seq<string>, n: int): seq<string> {
    if n <= 0 then [] else if n >= |lines| then lines else lines[..n]
  }

  function Drop(lines: seq<string>, n: int): seq<string> {
    if n <= 0 then lines else if n >= |lines| then [] else lines[n..]
  }

  function ReplaceRange(lines: seq<string>, startIndex: int, count: int, replacement: seq<string>): seq<string> {
    Take(lines, startIndex) + replacement + Drop(lines, startIndex + count)
  }

  function ApplyOneHunkToOld(lines: seq<string>, hunk: Hunk): seq<string> {
    if hunk.oldCount == 0 then
      var insertAt := if hunk.oldStart == 0 then 0 else hunk.oldStart;
      ReplaceRange(lines, insertAt, 0, hunk.newLines)
    else
      ReplaceRange(lines, hunk.oldStart - 1, hunk.oldCount, hunk.newLines)
  }

  function RevertOneHunkOnNew(lines: seq<string>, hunk: Hunk): seq<string> {
    if hunk.newCount == 0 then
      var insertAt := if hunk.newStart == 0 then 0 else hunk.newStart;
      ReplaceRange(lines, insertAt, 0, hunk.oldLines)
    else
      ReplaceRange(lines, hunk.newStart - 1, hunk.newCount, hunk.oldLines)
  }

  /** The hunks whose index was asked for, in patch order. */
  function Selected(hunks: seq<Hunk>, indexes: set<nat>): seq<Hunk> {
    if hunks == [] then []
    else (if hunks[0].index in indexes then [hunks[0]] else []) + Selected(hunks[1..], indexes)
  }

  function OldStartKey(h: Hunk): int {
    0 - h.oldStart as int
  }

  function NewStartKey(h: Hunk): int {
    0 - h.newStart as int
  }

  function ByOldStartDescending(hunks: seq<Hunk>): seq<Hunk> {
    Sort(hunks, OldStartKey)
  }

  function ByNewStartDescending(hunks: seq<Hunk>): seq<Hunk> {
    Sort(hunks, NewStartKey)
  }

  /** The state of the `next` variable after the loop has consumed `ordered`. */
  ghost function Spliced(lines: seq<string>, ordered: seq<Hunk>): seq<string> {
    if ordered == [] then lines
    else ApplyOneHunkToOld(Spliced(lines, ordered[..|ordered| - 1]), ordered[|ordered| - 1])
  }

  ghost function Unspliced(lines: seq<string>, ordered: seq<Hunk>): seq<string> {
    if ordered == [] then lines
    else RevertOneHunkOnNew(Unspliced(lines, ordered[..|ordered| - 1]), ordered[|ordered| - 1])
  }

  /** The loop of `applyHunks`. */
  method ApplyToLines(lines: seq<string>, hunks: seq<Hunk>) returns (next: seq<string>)
    ensures next == Spliced(lines, ByOldStartDescending(hunks))
    ensures Placed(lines, hunks, 0) && Ascending(hunks) ==> next == Edited(lines, hunks, 0, Indexes(hunks))
  {
    var ordered := ByOldStartDescending(hunks);
    next := lines;
    for i := 0 to |ordered|
      invariant next == Spliced(lines, ordered[..i])
    {
      next := ApplyOneHunkToOld(next, ordered[i]);
      assert ordered[..i + 1][..i] == ordered[..i];
    }
    assert ordered[..|ordered|] == ordered;
    if Placed(lines, hunks, 0) && Ascending(hunks) {
      ApplyingAll(lines, hunks);
    }
  }

  /** The loop of `revertHunksInContent`. */
  method RevertOnLines(lines: seq<string>, hunks: seq<Hunk>, indexes: set<nat>) returns (next: seq<string>)
    ensures next == Unspliced(lines, ByNewStartDescending(Selected(hunks, indexes)))
  {
    var ordered := ByNewStartDescending(Selected(hunks, indexes));
    next := lines;
    for i := 0 to |ordered|
      invariant next == Unspliced(lines, ordered[..i])
    {
      next := RevertOneHunkOnNew(next, ordered[i]);
      assert ordered[..i + 1][..i] == ordered[..i];
    }
    assert ordered[..|ordered|] == ordered;
  }

  // ----- what a well-formed hunk list is -----

  /** 0-based position of the replaced range; a hunk that replaces nothing names the line before it. */
  function OldAt(h: Hunk): int {
    if h.oldCount == 0 then h.oldStart else h.oldStart - 1
  }

  function NewAt(h: Hunk): int {
    if h.newCount == 0 then h.newStart else h.newStart - 1
  }

  /** The hunk's old side is really found in `lines`, and it changes something. */
  ghost predicate Fits(lines: seq<string>, h: Hunk) {
    && |h.oldLines| == h.oldCount
    && |h.newLines| == h.newCount
    && h.oldCount + h.newCount > 0
    && 0 <= OldAt(h)
    && OldAt(h) + h.oldCount <= |lines|
    && lines[OldAt(h)..OldAt(h) + h.oldCount] == h.oldLines
  }

  /** New positions are old positions moved by what the earlier hunks added and removed. */
  ghost predicate Aligned(hunks: seq<Hunk>, shift: int) {
    && (hunks != [] ==> NewAt(hunks[0]) == OldAt(hunks[0]) + shift)
    && forall i :: 0 < i < |hunks| ==>
         NewAt(hunks[i]) - OldAt(hunks[i])
         == NewAt(hunks[i - 1]) - OldAt(hunks[i - 1]) + hunks[i - 1].newCount - hunks[i - 1].oldCount
  }

  function Indexes(hunks: seq<Hunk>): set<nat> {
    set h | h in hunks :: h.index
  }

  /** The hunks lie in order inside `lines`, none before `from`. */
  ghost predicate Placed(lines: seq<string>, hunks: seq<Hunk>, from: int) {
    && 0 <= from <= |lines|
    && (hunks != [] ==>
          && from <= OldAt(hunks[0])
          && Fits(lines, hunks[0])
          && Placed(lines, hunks[1..], OldAt(hunks[0]) + hunks[0].oldCount))
  }

  /** A patch of `lines`: hunks in order that match them, numbered by position and with consistent new positions. */
  ghost predicate WellFormed(lines: seq<string>, hunks: seq<Hunk>) {
    && (forall i :: 0 <= i < |hunks| ==> hunks[i].index == i)
    && Placed(lines, hunks, 0)
    && Aligned(hunks, 0)
  }

  /** No two hunks start at the same line. */
  ghost predicate Ascending(hunks: seq<Hunk>) {
    forall i, j :: 0 <= i < j < |hunks| ==> hunks[i].oldStart < hunks[j].oldStart
  }

  /** The two sorts meet no ties: old starts differ, and so do new starts. */
  ghost predicate Untied(hunks: seq<Hunk>) {
    Ascending(hunks) && Ascending(FlipAll(hunks))
  }

  /**
   * The reference meaning of a hunk list: the lines from `from` on, read left to right, where
   * each hunk of `on` contributes its new side and every other hunk its old side.
   */
  ghost function Edited(lines: seq<string>, hunks: seq<Hunk>, from: int, on: set<nat>): seq<string>
    requires Placed(lines, hunks, from)
  {
    if hunks == [] then lines[from..]
    else
      var h := hunks[0];
      lines[from..OldAt(h)]
      + (if h.index in on then h.newLines else h.oldLines)
      + Edited(lines, hunks[1..], OldAt(h) + h.oldCount, on)
  }

  /** The lines from `from` on with every hunk applied. */
  ghost function Patched(lines: seq<string>, hunks: seq<Hunk>, from: int): seq<string>
    requires Placed(lines, hunks, from)
  {
    if hunks == [] then lines[from..]
    else
      lines[from..OldAt(hunks[0])] + hunks[0].newLines + Patched(lines, hunks[1..], OldAt(hunks[0]) + hunks[0].oldCount)
  }

  lemma PatchedOfCons(lines: seq<string>, h: Hunk, rest: seq<Hunk>, from: int)
    requires 0 <= from <= OldAt(h) && Fits(lines, h) && Placed(lines, rest, OldAt(h) + h.oldCount)
    ensures Placed(lines, [h] + rest, from)
    ensures Patched(lines, [h] + rest, from)
         == lines[from..OldAt(h)] + h.newLines + Patched(lines, rest, OldAt(h) + h.oldCount)
  {
    assert ([h] + rest)[1..] == rest;
  }

  lemma InTwo(lines: seq<string>, from: int, at: int, end: int)
    requires 0 <= from <= at <= end <= |lines|
    ensures lines[from..end] == lines[from..at] + lines[at..end]
  {
  }

  lemma PlacedEarlier(lines: seq<string>, hunks: seq<Hunk>, from: int, later: int)
    requires 0 <= from <= later && Placed(lines, hunks, later)
    ensures Placed(lines, hunks, from)
  {
  }

  lemma EarlierText(lines: seq<string>, from: int, later: int, at: int, side: seq<string>, tail: seq<string>)
    requires 0 <= from <= later <= at <= |lines|
    ensures lines[from..at] + side + tail == lines[from..later] + (lines[later..at] + side + tail)
  {
    InTwo(lines, from, later, at);
    RegroupFour(lines[from..later], lines[later..at], side, tail);
  }

  lemma PatchedUnfolds(lines: seq<string>, hunks: seq<Hunk>, from: int)
    requires Placed(lines, hunks, from) && hunks != []
    ensures Patched(lines, hunks, from)
         == lines[from..OldAt(hunks[0])] + hunks[0].newLines
            + Patched(lines, hunks[1..], OldAt(hunks[0]) + hunks[0].oldCount)
  {
  }

  lemma NothingEarlier(lines: seq<string>, from: int, later: int)
    requires 0 <= from <= later <= |lines|
    ensures lines[from..] == lines[from..later] + lines[later..]
  {
  }

  lemma PatchedEarlier(lines: seq<string>, hunks: seq<Hunk>, from: int, later: int)
    requires 0 <= from <= later && Placed(lines, hunks, from) && Placed(lines, hunks, later)
    ensures Patched(lines, hunks, from) == lines[from..later] + Patched(lines, hunks, later)
  {
    if hunks == [] {
      NothingEarlier(lines, from, later);
    } else {
      PatchedUnfolds(lines, hunks, from);
      PatchedUnfolds(lines, hunks, later);
      EarlierText(lines, from, later, OldAt(hunks[0]), hunks[0].newLines,
                  Patched(lines, hunks[1..], OldAt(hunks[0]) + hunks[0].oldCount));
    }
  }

  /** A hunk in front of placed ones, taken or left alone. */
  lemma PatchedBehind(lines: seq<string>, h: Hunk, chosen: seq<Hunk>, from: int, tail: seq<string>)
    requires 0 <= from <= OldAt(h) && Fits(lines, h)
    requires Placed(lines, chosen, OldAt(h) + h.oldCount) && Patched(lines, chosen, OldAt(h) + h.oldCount) == tail
    ensures Placed(lines, chosen, from) && Patched(lines, chosen, from) == lines[from..OldAt(h)] + h.oldLines + tail
  {
    var end := OldAt(h) + h.oldCount;
    PlacedEarlier(lines, chosen, from, end);
    PatchedEarlier(lines, chosen, from, end);
    InTwo(lines, from, OldAt(h), end);
  }

  /** The chosen hunks alone are placed too, and applying them is the reading with only them on. */
  lemma SelectedReading(lines: seq<string>, hunks: seq<Hunk>, from: int, on: set<nat>)
    requires Placed(lines, hunks, from)
    ensures Placed(lines, Selected(hunks, on), from)
    ensures Patched(lines, Selected(hunks, on), from) == Edited(lines, hunks, from, on)
  {
    SelectedReadsAlike(lines, hunks, from, on);
  }

  ghost predicate ReadsAlike(lines: seq<string>, chosen: seq<Hunk>, from: int, edited: seq<string>) {
    Placed(lines, chosen, from) && Patched(lines, chosen, from) == edited
  }

  lemma {:induction false} SelectedReadsAlike(lines: seq<string>, hunks: seq<Hunk>, from: int, on: set<nat>)
    requires Placed(lines, hunks, from)
    ensures ReadsAlike(lines, Selected(hunks, on), from, Edited(lines, hunks, from, on))
  {
    if hunks == [] {
      NothingSelected(lines, from, on);
    } else {
      PlacedParts(lines, hunks, from);
      SelectedReadsAlike(lines, hunks[1..], OldAt(hunks[0]) + hunks[0].oldCount, on);
      SelectedWithHead(lines, hunks, from, on);
    }
  }

  lemma SelectedWithHead(lines: seq<string>, hunks: seq<Hunk>, from: int, on: set<nat>)
    requires hunks != [] && Placed(lines, hunks, from)
    requires var end := OldAt(hunks[0]) + hunks[0].oldCount;
      ReadsAlike(lines, Selected(hunks[1..], on), end, Edited(lines, hunks[1..], end, on))
    ensures ReadsAlike(lines, Selected(hunks, on), from, Edited(lines, hunks, from, on))
  {
    EditedOfCons(lines, hunks, from, on);
    SelectedBehind(lines, hunks[0], hunks[1..], from, on, Edited(lines, hunks, from, on),
                   Edited(lines, hunks[1..], OldAt(hunks[0]) + hunks[0].oldCount, on));
    HeadAndTail(hunks);
  }

  lemma PlacedParts(lines: seq<string>, hunks: seq<Hunk>, from: int)
    requires Placed(lines, hunks, from) && hunks != []
    ensures 0 <= from <= OldAt(hunks[0]) && Fits(lines, hunks[0])
    ensures Placed(lines, hunks[1..], OldAt(hunks[0]) + hunks[0].oldCount)
  {
  }

  lemma NothingSelected(lines: seq<string>, from: int, on: set<nat>)
    requires Placed(lines, [], from)
    ensures ReadsAlike(lines, Selected([], on), from, Edited(lines, [], from, on))
  {
  }

  lemma SelectedBehind(
    lines: seq<string>, h: Hunk, rest: seq<Hunk>, from: int, on: set<nat>, edited: seq<string>, tail: seq<string>)
    requires 0 <= from <= OldAt(h) && Fits(lines, h)
    requires ReadsAlike(lines, Selected(rest, on), OldAt(h) + h.oldCount, tail)
    requires edited == lines[from..OldAt(h)] + (if h.index in on then h.newLines else h.oldLines) + tail
    ensures ReadsAlike(lines, Selected([h] + rest, on), from, edited)
  {
    SelectedReadingStep(lines, h, rest, from, on, tail);
  }

  lemma SelectedReadingStep(lines: seq<string>, h: Hunk, rest: seq<Hunk>, from: int, on: set<nat>, tail: seq<string>)
    requires 0 <= from <= OldAt(h) && Fits(lines, h) && Placed(lines, Selected(rest, on), OldAt(h) + h.oldCount)
    requires Patched(lines, Selected(rest, on), OldAt(h) + h.oldCount) == tail
    ensures Placed(lines, Selected([h] + rest, on), from)
    ensures Patched(lines, Selected([h] + rest, on), from)
         == lines[from..OldAt(h)] + (if h.index in on then h.newLines else h.oldLines) + tail
  {
    SelectedOfCons(h, rest, on);
    if h.index in on {
      PatchedOfCons(lines, h, Selected(rest, on), from);
    } else {
      PatchedBehind(lines, h, Selected(rest, on), from, tail);
    }
  }

  lemma {:induction false} SelectedMember(hunks: seq<Hunk>, indexes: set<nat>, h: Hunk)
    ensures h in Selected(hunks, indexes) <==> h in hunks && h.index in indexes
  {
    if hunks == [] {
    } else {
      SelectedMember(hunks[1..], indexes, h);
      assert hunks == [hunks[0]] + hunks[1..];
    }
  }

  lemma {:induction false} SelectedAscends(hunks: seq<Hunk>, indexes: set<nat>)
    requires Ascending(hunks)
    ensures Ascending(Selected(hunks, indexes))
  {
    if hunks == [] {
    } else {
      var rest := Selected(hunks[1..], indexes);
      SelectedAscends(hunks[1..], indexes);
      forall j | 0 <= j < |rest| ensures hunks[0].oldStart < rest[j].oldStart {
        SelectedMember(hunks[1..], indexes, rest[j]);
      }
    }
  }

  /** Splicing an ascending list last hunk first. */
  ghost function SplicedBackwards(lines: seq<string>, hunks: seq<Hunk>): seq<string> {
    if hunks == [] then lines else ApplyOneHunkToOld(SplicedBackwards(lines, hunks[1..]), hunks[0])
  }

  lemma {:induction false} SplicedReverse(lines: seq<string>, hunks: seq<Hunk>)
    ensures Spliced(lines, Reverse(hunks)) == SplicedBackwards(lines, hunks)
  {
    if hunks == [] {
    } else {
      var r := Reverse(hunks[1..]);
      assert (r + [hunks[0]])[..|r|] == r;
      SplicedReverse(lines, hunks[1..]);
    }
  }

  lemma SortedSplice(lines: seq<string>, hunks: seq<Hunk>)
    requires Ascending(hunks)
    ensures Spliced(lines, ByOldStartDescending(hunks)) == SplicedBackwards(lines, hunks)
  {
    SortReversesDescending(hunks, OldStartKey);
    SplicedReverse(lines, hunks);
  }

  // ----- applying -----

  lemma ApplyIsReplace(lines: seq<string>, h: Hunk)
    ensures ApplyOneHunkToOld(lines, h) == ReplaceRange(lines, OldAt(h), h.oldCount, h.newLines)
  {
  }

  lemma ReplaceInside(before: seq<string>, middle: seq<string>, after: seq<string>, replacement: seq<string>)
    ensures ReplaceRange(before + middle + after, |before|, |middle|, replacement) == before + replacement + after
  {
    var whole := before + middle + after;
    assert Take(whole, |before|) == before;
    assert Drop(whole, |before| + |middle|) == after;
  }

  lemma ApplyInside(before: seq<string>, h: Hunk, tail: seq<string>)
    requires OldAt(h) == |before| && |h.oldLines| == h.oldCount
    ensures ApplyOneHunkToOld(before + h.oldLines + tail, h) == before + h.newLines + tail
  {
    ApplyIsReplace(before + h.oldLines + tail, h);
    ReplaceInside(before, h.oldLines, tail, h.newLines);
  }

  lemma SplitAtHunk(lines: seq<string>, h: Hunk, from: int)
    requires Fits(lines, h) && 0 <= from <= OldAt(h)
    ensures lines[..OldAt(h) + h.oldCount] == lines[..from] + lines[from..OldAt(h)] + h.oldLines
    ensures |lines[..from] + lines[from..OldAt(h)]| == OldAt(h)
  {
    assert lines[..OldAt(h) + h.oldCount] == lines[..OldAt(h)] + lines[OldAt(h)..OldAt(h) + h.oldCount];
  }

  lemma KeptHunk(lines: seq<string>, h: Hunk, from: int, tail: seq<string>)
    requires Fits(lines, h) && 0 <= from <= OldAt(h)
    ensures lines[..OldAt(h) + h.oldCount] + tail == lines[..from] + (lines[from..OldAt(h)] + h.oldLines + tail)
  {
    SplitAtHunk(lines, h, from);
    RegroupFour(lines[..from], lines[from..OldAt(h)], h.oldLines, tail);
  }

  lemma AppliedHunk(lines: seq<string>, h: Hunk, from: int, tail: seq<string>)
    requires Fits(lines, h) && 0 <= from <= OldAt(h)
    ensures ApplyOneHunkToOld(lines[..OldAt(h) + h.oldCount] + tail, h)
         == lines[..from] + (lines[from..OldAt(h)] + h.newLines + tail)
  {
    SplitAtHunk(lines, h, from);
    ApplyInside(lines[..from] + lines[from..OldAt(h)], h, tail);
    RegroupFour(lines[..from], lines[from..OldAt(h)], h.newLines, tail);
  }

  lemma SelectedOfCons(h: Hunk, rest: seq<Hunk>, indexes: set<nat>)
    ensures Selected([h] + rest, indexes)
         == if h.index in indexes then [h] + Selected(rest, indexes) else Selected(rest, indexes)
  {
    assert ([h] + rest)[1..] == rest;
  }

  lemma BackwardsOfCons(lines: seq<string>, h: Hunk, rest: seq<Hunk>)
    ensures SplicedBackwards(lines, [h] + rest) == ApplyOneHunkToOld(SplicedBackwards(lines, rest), h)
  {
    assert ([h] + rest)[1..] == rest;
  }

  lemma EditedOfCons(lines: seq<string>, hunks: seq<Hunk>, from: int, on: set<nat>)
    requires Placed(lines, hunks, from) && hunks != []
    ensures Edited(lines, hunks, from, on)
         == lines[from..OldAt(hunks[0])] + (if hunks[0].index in on then hunks[0].newLines else hunks[0].oldLines)
            + Edited(lines, hunks[1..], OldAt(hunks[0]) + hunks[0].oldCount, on)
  {
  }

  lemma BackwardsStep(lines: seq<string>, h: Hunk, rest: seq<Hunk>, from: int, on: set<nat>, tail: seq<string>)
    requires Fits(lines, h) && 0 <= from <= OldAt(h)
    requires SplicedBackwards(lines, Selected(rest, on)) == lines[..OldAt(h) + h.oldCount] + tail
    ensures SplicedBackwards(lines, Selected([h] + rest, on))
         == lines[..from] + (lines[from..OldAt(h)] + (if h.index in on then h.newLines else h.oldLines) + tail)
  {
    SelectedOfCons(h, rest, on);
    BackwardsOfCons(lines, h, Selected(rest, on));
    KeptHunk(lines, h, from, tail);
    AppliedHunk(lines, h, from, tail);
  }

  lemma BackwardsOfNone(lines: seq<string>, from: int, on: set<nat>)
    requires 0 <= from <= |lines|
    ensures SplicedBackwards(lines, Selected([], on)) == lines[..from] + Edited(lines, [], from, on)
  {
    assert lines == lines[..from] + lines[from..];
  }

  lemma BackwardsOfSome(lines: seq<string>, hunks: seq<Hunk>, from: int, on: set<nat>, tail: seq<string>)
    requires Placed(lines, hunks, from) && hunks != []
    requires tail == Edited(lines, hunks[1..], OldAt(hunks[0]) + hunks[0].oldCount, on)
    requires SplicedBackwards(lines, Selected(hunks[1..], on)) == lines[..OldAt(hunks[0]) + hunks[0].oldCount] + tail
    ensures SplicedBackwards(lines, Selected(hunks, on)) == lines[..from] + Edited(lines, hunks, from, on)
  {
    BackwardsStep(lines, hunks[0], hunks[1..], from, on, tail);
    HeadAndTail(hunks);
    EditedOfCons(lines, hunks, from, on);
  }

  /** Later splices cannot move the positions an earlier hunk names. */
  lemma {:induction false} BackwardsIsEdited(lines: seq<string>, hunks: seq<Hunk>, from: int, on: set<nat>)
    requires Placed(lines, hunks, from)
    ensures SplicedBackwards(lines, Selected(hunks, on)) == lines[..from] + Edited(lines, hunks, from, on)
  {
    if hunks == [] {
      BackwardsOfNone(lines, from, on);
    } else {
      var end := OldAt(hunks[0]) + hunks[0].oldCount;
      BackwardsIsEdited(lines, hunks[1..], end, on);
      BackwardsOfSome(lines, hunks, from, on, Edited(lines, hunks[1..], end, on));
    }
  }

  lemma {:induction false} SelectedAll(hunks: seq<Hunk>, on: set<nat>)
    requires forall i :: 0 <= i < |hunks| ==> hunks[i].index in on
    ensures Selected(hunks, on) == hunks
  {
    if hunks == [] {
    } else {
      SelectedAll(hunks[1..], on);
    }
  }

  /** Without ties, sorting and splicing in place computes the reference meaning, for every subset of the hunks. */
  lemma ApplyingSelected(lines: seq<string>, hunks: seq<Hunk>, on: set<nat>)
    requires Placed(lines, hunks, 0) && Ascending(hunks)
    ensures Spliced(lines, ByOldStartDescending(Selected(hunks, on))) == Edited(lines, hunks, 0, on)
  {
    SelectedAscends(hunks, on);
    SortedSplice(lines, Selected(hunks, on));
    BackwardsIsEdited(lines, hunks, 0, on);
  }

  lemma ApplyingAll(lines: seq<string>, hunks: seq<Hunk>)
    requires Placed(lines, hunks, 0) && Ascending(hunks)
    ensures Spliced(lines, ByOldStartDescending(hunks)) == Edited(lines, hunks, 0, Indexes(hunks))
  {
    SelectedAll(hunks, Indexes(hunks));
    ApplyingSelected(lines, hunks, Indexes(hunks));
  }

  // ----- reverting is applying the flipped patch to the new lines -----

  function Flip(h: Hunk): Hunk {
    Hunk(h.index, h.newStart, h.newCount, h.oldStart, h.oldCount, h.newLines, h.oldLines)
  }

  ghost function FlipAll(hunks: seq<Hunk>): (r: seq<Hunk>)
    ensures |r| == |hunks|
    ensures forall i :: 0 <= i < |hunks| ==> r[i] == Flip(hunks[i])
  {
    seq(|hunks|, i requires 0 <= i < |hunks| => Flip(hunks[i]))
  }

  lemma RevertIsFlippedApply(lines: seq<string>, h: Hunk)
    ensures RevertOneHunkOnNew(lines, h) == ApplyOneHunkToOld(lines, Flip(h))
  {
  }

  lemma FlipAllOfPrefix(ordered: seq<Hunk>)
    requires ordered != []
    ensures FlipAll(ordered)[..|ordered| - 1] == FlipAll(ordered[..|ordered| - 1])
  {
  }

  lemma {:induction false} UnsplicedIsFlippedSplice(lines: seq<string>, ordered: seq<Hunk>)
    ensures Unspliced(lines, ordered) == Spliced(lines, FlipAll(ordered))
  {
    if ordered == [] {
    } else {
      var n := |ordered| - 1;
      UnsplicedIsFlippedSplice(lines, ordered[..n]);
      FlipAllOfPrefix(ordered);
      RevertIsFlippedApply(Unspliced(lines, ordered[..n]), ordered[n]);
    }
  }

  lemma FlipAllOfSnoc(hunks: seq<Hunk>, h: Hunk)
    ensures FlipAll(hunks + [h]) == FlipAll(hunks) + [Flip(h)]
  {
  }

  lemma {:induction false} FlipInsert(sorted: seq<Hunk>, h: Hunk)
    ensures FlipAll(Insert(sorted, h, NewStartKey)) == Insert(FlipAll(sorted), Flip(h), OldStartKey)
  {
    if sorted == [] {
      assert FlipAll([h]) == [Flip(h)];
    } else {
      var n := |sorted| - 1;
      FlipAllOfPrefix(sorted);
      FlipAllOfSnoc(sorted, h);
      FlipInsert(sorted[..n], h);
      FlipAllOfSnoc(Insert(sorted[..n], h, NewStartKey), sorted[n]);
    }
  }

  /** Sorting by new start is sorting the turned-round hunks by old start, ties included. */
  lemma {:induction false} FlipSort(hunks: seq<Hunk>)
    ensures FlipAll(ByNewStartDescending(hunks)) == ByOldStartDescending(FlipAll(hunks))
  {
    if hunks == [] {
      assert FlipAll([]) == [];
    } else {
      var n := |hunks| - 1;
      FlipSort(hunks[..n]);
      FlipAllOfPrefix(hunks);
      FlipInsert(ByNewStartDescending(hunks[..n]), hunks[n]);
    }
  }

  lemma {:induction false} FlipSelected(hunks: seq<Hunk>, indexes: set<nat>)
    ensures FlipAll(Selected(hunks, indexes)) == Selected(FlipAll(hunks), indexes)
  {
    if hunks == [] {
    } else {
      FlipSelected(hunks[1..], indexes);
      assert FlipAll(hunks)[1..] == FlipAll(hunks[1..]);
    }
  }

  /** The revert loop on any lines is the apply loop of the turned-round hunks. */
  lemma RevertIsApply(lines: seq<string>, hunks: seq<Hunk>, indexes: set<nat>)
    ensures Unspliced(lines, ByNewStartDescending(Selected(hunks, indexes)))
         == Spliced(lines, ByOldStartDescending(Selected(FlipAll(hunks), indexes)))
  {
    UnsplicedIsFlippedSplice(lines, ByNewStartDescending(Selected(hunks, indexes)));
    FlipSort(Selected(hunks, indexes));
    FlipSelected(hunks, indexes);
  }

  lemma FlipFits(h: Hunk, before: seq<string>, after: seq<string>)
    requires |h.oldLines| == h.oldCount && |h.newLines| == h.newCount && h.oldCount + h.newCount > 0
    requires NewAt(h) == |before|
    ensures Fits(before + h.newLines + after, Flip(h))
  {
    var patched := before + h.newLines + after;
    assert patched[|before|..|before| + h.newCount] == h.newLines;
  }

  lemma AlignedTail(hunks: seq<Hunk>, shift: int)
    requires hunks != [] && Aligned(hunks, shift)
    ensures Aligned(hunks[1..], shift + hunks[0].newCount - hunks[0].oldCount)
  {
    var rest := hunks[1..];
    forall i | 0 < i < |rest| ensures
      NewAt(rest[i]) - OldAt(rest[i])
      == NewAt(rest[i - 1]) - OldAt(rest[i - 1]) + rest[i - 1].newCount - rest[i - 1].oldCount
    {
      assert rest[i] == hunks[i + 1] && rest[i - 1] == hunks[i];
    }
    if rest != [] {
      assert rest[0] == hunks[1];
    }
  }

  /** One hunk of the flipped reading; `rest` and its reading are already dealt with. */
  lemma FlippedStep(
    h: Hunk, flippedRest: seq<Hunk>, pre: seq<string>, gap: seq<string>, tail: seq<string>,
    patched: seq<string>, on: set<nat>)
    requires |h.oldLines| == h.oldCount && |h.newLines| == h.newCount && h.oldCount + h.newCount > 0
    requires NewAt(h) == |pre + gap|
    requires patched == pre + gap + h.newLines + tail
    requires Placed(patched, flippedRest, |pre + gap + h.newLines|)
    ensures Placed(patched, [Flip(h)] + flippedRest, |pre|)
    ensures Edited(patched, [Flip(h)] + flippedRest, |pre|, on)
         == gap + (if h.index in on then h.oldLines else h.newLines)
            + Edited(patched, flippedRest, |pre + gap + h.newLines|, on)
  {
    FlipFits(h, pre + gap, tail);
    assert ([Flip(h)] + flippedRest)[1..] == flippedRest;
    assert patched[|pre|..NewAt(h)] == gap;
  }

  ghost predicate ReadsBack(patched: seq<string>, flipped: seq<Hunk>, at: int, on: set<nat>, text: seq<string>) {
    Placed(patched, flipped, at) && Edited(patched, flipped, at, on) == text
  }

  lemma {:induction false} FlippedReadsBack(
    lines: seq<string>, hunks: seq<Hunk>, from: int, shift: int,
    pre: seq<string>, patched: seq<string>, all: set<nat>, on: set<nat>, off: set<nat>)
    requires Placed(lines, hunks, from) && Aligned(hunks, shift)
    requires Complementary(hunks, all, on, off)
    requires |pre| == from + shift && patched == pre + Edited(lines, hunks, from, all)
    ensures ReadsBack(patched, FlipAll(hunks), |pre|, on, Edited(lines, hunks, from, off))
  {
    if hunks == [] {
      assert patched[|pre|..] == lines[from..];
    } else {
      var h, rest := hunks[0], hunks[1..];
      var end := OldAt(h) + h.oldCount;
      var gap := lines[from..OldAt(h)];
      PatchedParts(lines, hunks, from, pre, patched, all);
      AlignedTail(hunks, shift);
      FlippedReadsBack(lines, rest, end, shift + h.newCount - h.oldCount, pre + gap + h.newLines, patched,
                       all, on, off);
      NewStart(hunks, shift);
      FlippedBehind(h, FlipAll(rest), pre, gap, Edited(lines, rest, end, all), patched, on,
                    Edited(lines, rest, end, off));
      FlipAllOfCons(hunks);
      EditedOfCons(lines, hunks, from, off);
    }
  }

  lemma NewStart(hunks: seq<Hunk>, shift: int)
    requires hunks != [] && Aligned(hunks, shift)
    ensures NewAt(hunks[0]) == OldAt(hunks[0]) + shift
  {
  }

  lemma FlipAllOfCons(hunks: seq<Hunk>)
    requires hunks != []
    ensures FlipAll(hunks) == [Flip(hunks[0])] + FlipAll(hunks[1..])
  {
  }

  lemma FlippedBehind(
    h: Hunk, flippedRest: seq<Hunk>, pre: seq<string>, gap: seq<string>, tail: seq<string>,
    patched: seq<string>, on: set<nat>, text: seq<string>)
    requires |h.oldLines| == h.oldCount && |h.newLines| == h.newCount && h.oldCount + h.newCount > 0
    requires NewAt(h) == |pre + gap|
    requires patched == pre + gap + h.newLines + tail
    requires ReadsBack(patched, flippedRest, |pre + gap + h.newLines|, on, text)
    ensures ReadsBack(patched, [Flip(h)] + flippedRest, |pre|, on,
                      gap + (if h.index in on then h.oldLines else h.newLines) + text)
  {
    FlippedStep(h, flippedRest, pre, gap, tail, patched, on);
  }

  ghost predicate Complementary(hunks: seq<Hunk>, all: set<nat>, on: set<nat>, off: set<nat>) {
    forall h :: h in hunks ==> h.index in all && (h.index in on <==> h.index !in off)
  }

  lemma PatchedParts(
    lines: seq<string>, hunks: seq<Hunk>, from: int, pre: seq<string>, patched: seq<string>, all: set<nat>)
    requires Placed(lines, hunks, from) && hunks != [] && hunks[0].index in all
    requires patched == pre + Edited(lines, hunks, from, all)
    ensures var h := hunks[0];
      patched == pre + lines[from..OldAt(h)] + h.newLines + Edited(lines, hunks[1..], OldAt(h) + h.oldCount, all)
  {
    var h := hunks[0];
    EditedOfCons(lines, hunks, from, all);
    RegroupFour(pre, lines[from..OldAt(h)], h.newLines, Edited(lines, hunks[1..], OldAt(h) + h.oldCount, all));
  }

  /** Reading the patched lines through the flipped hunks: `off` are the hunks left applied. */
  lemma FlippedReading(
    lines: seq<string>, hunks: seq<Hunk>, from: int, shift: int,
    pre: seq<string>, patched: seq<string>, all: set<nat>, on: set<nat>, off: set<nat>)
    requires Placed(lines, hunks, from) && Aligned(hunks, shift)
    requires Complementary(hunks, all, on, off)
    requires |pre| == from + shift && patched == pre + Edited(lines, hunks, from, all)
    ensures Placed(patched, FlipAll(hunks), |pre|)
    ensures Edited(patched, FlipAll(hunks), |pre|, on) == Edited(lines, hunks, from, off)
  {
    FlippedReadsBack(lines, hunks, from, shift, pre, patched, all, on, off);
  }

  /** The patched lines, read through the turned-round hunks. */
  lemma PatchedReading(lines: seq<string>, hunks: seq<Hunk>, indexes: set<nat>)
    requires WellFormed(lines, hunks)
    ensures var patched := Edited(lines, hunks, 0, Indexes(hunks));
      && Placed(patched, FlipAll(hunks), 0)
      && Edited(patched, FlipAll(hunks), 0, indexes) == Edited(lines, hunks, 0, Indexes(hunks) - indexes)
  {
    var patched := Edited(lines, hunks, 0, Indexes(hunks));
    assert patched == [] + patched;
    FlippedReading(lines, hunks, 0, 0, [], patched, Indexes(hunks), indexes, Indexes(hunks) - indexes);
  }

  /**
   * Reverting any subset of the hunks on the fully patched lines gives exactly the lines that
   * applying only the other hunks gives; touching hunks are no exception, only ties are.
   */
  lemma RevertingSubset(lines: seq<string>, hunks: seq<Hunk>, indexes: set<nat>)
    requires WellFormed(lines, hunks) && Untied(hunks)
    ensures Unspliced(Spliced(lines, ByOldStartDescending(hunks)), ByNewStartDescending(Selected(hunks, indexes)))
         == Edited(lines, hunks, 0, Indexes(hunks) - indexes)
         == Spliced(lines, ByOldStartDescending(Selected(hunks, Indexes(hunks) - indexes)))
  {
    ApplyingAll(lines, hunks);
    ApplyingSelected(lines, hunks, Indexes(hunks) - indexes);
    PatchedReading(lines, hunks, indexes);
    RevertIsApply(Edited(lines, hunks, 0, Indexes(hunks)), hunks, indexes);
    ApplyingSelected(Edited(lines, hunks, 0, Indexes(hunks)), FlipAll(hunks), indexes);
  }

  lemma {:induction false} EditedWithNone(lines: seq<string>, hunks: seq<Hunk>, from: int, on: set<nat>)
    requires Placed(lines, hunks, from)
    requires forall i :: 0 <= i < |hunks| ==> hunks[i].index !in on
    ensures Edited(lines, hunks, from, on) == lines[from..]
  {
    if hunks == [] {
    } else {
      var at, end := OldAt(hunks[0]), OldAt(hunks[0]) + hunks[0].oldCount;
      var rest := hunks[1..];
      forall i | 0 <= i < |rest| ensures rest[i].index !in on {
        assert rest[i] == hunks[i + 1];
      }
      EditedWithNone(lines, rest, end, on);
      EditedOfCons(lines, hunks, from, on);
      InThree(lines, from, at, end);
    }
  }

  lemma InThree(lines: seq<string>, from: int, at: int, end: int)
    requires 0 <= from <= at <= end <= |lines|
    ensures lines[from..] == lines[from..at] + lines[at..end] + lines[end..]
  {
  }

  /** Reverting every hunk of a patch gives the old lines back. */
  lemma RevertingEverything(lines: seq<string>, hunks: seq<Hunk>, indexes: set<nat>)
    requires WellFormed(lines, hunks) && Untied(hunks)
    requires Indexes(hunks) <= indexes
    ensures Unspliced(Spliced(lines, ByOldStartDescending(hunks)), ByNewStartDescending(Selected(hunks, indexes)))
         == lines
  {
    RevertingSubset(lines, hunks, indexes);
    EditedWithNone(lines, hunks, 0, Indexes(hunks) - indexes);
  }

  /** Hunks that touch are covered: the second starts right behind the first, at another line. */
  lemma TouchingHunksAreUntied(lines: seq<string>, a: Hunk, b: Hunk)
    requires |lines| == 5 && Fits(lines, a) && Fits(lines, b) && a.index == 0 && b.index == 1
    requires (a.oldStart, a.oldCount, a.newStart, a.newCount) == (1, 3, 1, 3)
    requires (b.oldStart, b.oldCount, b.newStart, b.newCount) == (4, 2, 4, 2)
    ensures WellFormed(lines, [a, b]) && Untied([a, b])
  {
    assert [a, b][1..] == [b] && [b][1..] == [];
    assert Placed(lines, [b], 3);
    assert FlipAll([a, b]) == [Flip(a), Flip(b)];
  }
}
