/**
 * applyHunks and revertHunksInContent on whole file contents
 * (packages/contracts/src/gitHunks.ts), and exactly when reverting undoes applying.
 */
module GitHunkContent {
  import opened Wrappers
  import opened Sequences
  import opened Lines
  import opened StableSort
  import opened GitHunks
  import opened GitHunkTies
  import opened GitHunkParser

  datatype Parsed = Parsed(lines: seq<string>, endedWithNewline: bool)

  function SplitLines(content: string): Parsed {
    if content == "" then Parsed([], false)
    else
      var ended := content[|content| - 1] == '\n';
      Parsed(Split(if ended then content[..|content| - 1] else content), ended)
  }

  function JoinLines(lines: seq<string>, endedWithNewline: bool): string {
    if lines == [] then if endedWithNewline then "\n" else ""
    else if endedWithNewline then Join(lines) + "\n"
    else Join(lines)
  }

  /** The pairs that splitLines can tell apart after joinLines. */
  predicate Rejoinable(lines: seq<string>, endedWithNewline: bool) {
    && (lines == [] ==> !endedWithNewline)
    && (lines != [] && lines[|lines| - 1] == "" ==> endedWithNewline)
  }

  lemma JoinOfSplitLines(content: string)
    ensures var p := SplitLines(content); JoinLines(p.lines, p.endedWithNewline) == content
  {
    if content != "" {
      var ended := content[|content| - 1] == '\n';
      var body := if ended then content[..|content| - 1] else content;
      JoinOfSplit(body);
      assert ended ==> content == body + "\n";
    }
  }

  lemma {:induction false} SplitEndsLikeText(s: string)
    ensures var lines := Split(s); lines[|lines| - 1] == "" <==> s == "" || s[|s| - 1] == '\n'
  {
    if s == "" {
    } else {
      SplitEndsLikeText(s[1..]);
    }
  }

  lemma SplitLinesIsRejoinable(content: string)
    ensures var p := SplitLines(content); Rejoinable(p.lines, p.endedWithNewline) && NewlineFree(p.lines)
  {
    if content != "" {
      var ended := content[|content| - 1] == '\n';
      var body := if ended then content[..|content| - 1] else content;
      SplitEndsLikeText(body);
      SplitIsNewlineFree(body);
    }
  }

  lemma {:induction false} JoinEndsLikeLines(lines: seq<string>)
    requires lines != [] && NewlineFree(lines)
    ensures Join(lines) == "" <==> lines == [""]
    ensures Join(lines) != "" ==> (Join(lines)[|Join(lines)| - 1] == '\n' <==> lines[|lines| - 1] == "")
  {
    if |lines| == 1 {
    } else {
      JoinEndsLikeLines(lines[1..]);
      var tail := Join(lines[1..]);
      assert Join(lines) == lines[0] + "\n" + tail;
    }
  }

  lemma WithNewline(lines: seq<string>)
    requires lines != [] && NewlineFree(lines)
    ensures SplitLines(JoinLines(lines, true)) == Parsed(lines, true)
  {
    var joined := Join(lines);
    assert (joined + "\n")[..|joined|] == joined;
    SplitOfJoin(lines);
  }

  lemma LostEmptyLine(lines: seq<string>)
    requires |lines| >= 2 && NewlineFree(lines) && lines[|lines| - 1] == ""
    ensures SplitLines(JoinLines(lines, false)) == Parsed(lines[..|lines| - 1], true)
  {
    var n := |lines| - 1;
    assert lines == lines[..n] + [""];
    JoinOfAppend(lines[..n], "");
    assert Join(lines) == Join(lines[..n]) + "\n";
    WithNewline(lines[..n]);
  }

  /** joinLines loses exactly an empty list with a final newline and an empty last line without one. */
  lemma SplitOfJoinLines(lines: seq<string>, endedWithNewline: bool)
    requires NewlineFree(lines)
    ensures SplitLines(JoinLines(lines, endedWithNewline)) == Parsed(lines, endedWithNewline)
       <==> Rejoinable(lines, endedWithNewline)
  {
    if lines != [] {
      if endedWithNewline {
        WithNewline(lines);
      } else {
        JoinEndsLikeLines(lines);
        SplitOfJoin(lines);
      }
    } else if endedWithNewline {
      assert SplitLines("\n").lines == Split("");
    }
  }

  // ----- the code -----

  ghost function ApplyContent(oldContent: string, hunks: seq<Hunk>): string {
    var parsed := SplitLines(oldContent);
    JoinLines(Spliced(parsed.lines, ByOldStartDescending(hunks)), parsed.endedWithNewline)
  }

  ghost function RevertContent(newContent: string, hunks: seq<Hunk>, indexes: set<nat>): string {
    var parsed := SplitLines(newContent);
    JoinLines(Unspliced(parsed.lines, ByNewStartDescending(Selected(hunks, indexes))), parsed.endedWithNewline)
  }

  ghost function HunksIn(patch: string): seq<Hunk> {
    ReadHunks(Split(patch), 0)
  }

  method ApplyHunks(oldContent: string, patch: string) returns (newContent: string)
    ensures newContent == ApplyContent(oldContent, HunksIn(patch))
  {
    var parsed := SplitLines(oldContent);
    var hunks := ParseUnifiedHunks(patch);
    var next := ApplyToLines(parsed.lines, hunks);
    newContent := JoinLines(next, parsed.endedWithNewline);
  }

  method RevertHunksInContent(newContent: string, patch: string, hunkIndexes: seq<nat>) returns (content: string)
    ensures content == RevertContent(newContent, HunksIn(patch), set i | i in hunkIndexes)
  {
    var parsed := SplitLines(newContent);
    var hunks := ParseUnifiedHunks(patch);
    var next := RevertOnLines(parsed.lines, hunks, set i | i in hunkIndexes);
    content := JoinLines(next, parsed.endedWithNewline);
  }

  // ----- reverting on contents -----

  /** What reverting `indexes` on the patched content should give: the other hunks applied to the old content. */
  ghost function Expected(oldContent: string, hunks: seq<Hunk>, indexes: set<nat>): string {
    ApplyContent(oldContent, Selected(hunks, Indexes(hunks) - indexes))
  }

  /** How many lines the hunks add, removed ones subtracted. */
  function Growth(hunks: seq<Hunk>): int {
    if hunks == [] then 0 else Growth(hunks[..|hunks| - 1]) + Gain(hunks[|hunks| - 1])
  }

  function Gain(h: Hunk): int {
    |h.newLines| - |h.oldLines|
  }

  function End(h: Hunk): int {
    OldAt(h) + h.oldCount
  }

  function NewEnd(h: Hunk): int {
    NewAt(h) + h.newCount
  }

  function Last<T>(xs: seq<T>): T
    requires xs != []
  {
    xs[|xs| - 1]
  }

  /** The line in front of old position `at`, once the hunks up to there are applied. */
  function LineBefore(lines: seq<string>, hunks: seq<Hunk>, at: int): Option<string>
    decreases |hunks|
  {
    if hunks != [] && End(Last(hunks)) == at then
      if Last(hunks).newLines != [] then Some(Last(Last(hunks).newLines))
      else LineBefore(lines, hunks[..|hunks| - 1], OldAt(Last(hunks)))
    else if 0 < at <= |lines| then Some(lines[at - 1])
    else None
  }

  /**
   * No line is lost in joining the patched lines: neither is everything deleted from a text that ended with
   * a newline, nor does one that did not end with one get an empty last line.
   */
  predicate KeepsLines(oldContent: string, hunks: seq<Hunk>) {
    var parsed := SplitLines(oldContent);
    if parsed.endedWithNewline then |parsed.lines| + Growth(hunks) > 0
    else LineBefore(parsed.lines, hunks, |parsed.lines|) != Some("")
  }

  /**
   * When reverting `indexes` on the patched content works: no line is lost in joining, or nothing is
   * reverted, or the last hunk reverted makes up for the loss.
   */
  ghost predicate Recoverable(oldContent: string, hunks: seq<Hunk>, indexes: set<nat>) {
    var parsed := SplitLines(oldContent);
    var chosen := Selected(hunks, indexes);
    || chosen == []
    || KeepsLines(oldContent, hunks)
    || (!parsed.endedWithNewline
        && RecoversLine(|parsed.lines|, hunks, indexes, Last(chosen), |parsed.lines| + Growth(hunks)))
  }

  /**
   * An empty last line was lost. If it was the only line, the last reverted hunk must replace it;
   * otherwise that hunk must stay away from the end and some other line must remain.
   */
  ghost predicate RecoversLine(oldCount: nat, hunks: seq<Hunk>, indexes: set<nat>, last: Hunk, n: int) {
    if n == 1 then NewEnd(last) == 1 == last.newCount
    else NewEnd(last) < n && oldCount + Growth(Selected(hunks, Indexes(hunks) - indexes)) != 1
  }

  /** The hunks' ties agree, as far as the hunks are placed at all. */
  ghost predicate TiesMayAgree(lines: seq<string>, hunks: seq<Hunk>) {
    Placed(lines, hunks, 0) ==> TiesAgree(lines, hunks, 0)
  }

  /** No line is lost, and the patch and the hunks that stay apply right, ties or not. */
  ghost predicate AppliesRight(oldContent: string, hunks: seq<Hunk>, indexes: set<nat>)
    requires WellFormed(SplitLines(oldContent).lines, hunks)
  {
    var lines := SplitLines(oldContent).lines;
    && KeepsLines(oldContent, hunks)
    && TiesAgree(lines, hunks, 0)
    && TiesMayAgree(lines, Selected(hunks, Indexes(hunks) - indexes))
  }

  ghost predicate RevertsRight(oldContent: string, hunks: seq<Hunk>, indexes: set<nat>) {
    RevertContent(ApplyContent(oldContent, hunks), hunks, indexes) == Expected(oldContent, hunks, indexes)
  }

  ghost predicate LinesOf(hunks: seq<Hunk>) {
    forall i :: 0 <= i < |hunks| ==> NewlineFree(hunks[i].oldLines) && NewlineFree(hunks[i].newLines)
  }

  lemma {:induction false} EditedIsNewlineFree(lines: seq<string>, hunks: seq<Hunk>, from: int, on: set<nat>)
    requires Placed(lines, hunks, from) && NewlineFree(lines) && LinesOf(hunks)
    ensures NewlineFree(Edited(lines, hunks, from, on))
  {
    if hunks == [] {
    } else {
      EditedIsNewlineFree(lines, hunks[1..], OldAt(hunks[0]) + hunks[0].oldCount, on);
    }
  }

  // --- the last hunk of a placed list

  lemma ShorterHunk(lines: seq<string>, end: nat, h: Hunk, from: int)
    requires Fits(lines, h) && 0 <= from <= OldAt(h) && End(h) <= end <= |lines|
    ensures Fits(lines[..end], h) && lines[..end][from..OldAt(h)] == lines[from..OldAt(h)]
  {
    assert lines[..end][OldAt(h)..End(h)] == lines[OldAt(h)..End(h)];
  }

  /** Hunks that end before some line do not see it: without the rest they give the same lines without the rest. */
  lemma {:induction false} PlacedInShorter(lines: seq<string>, end: nat, hunks: seq<Hunk>, from: int)
    requires Placed(lines, hunks, from) && from <= end <= |lines|
    requires forall h :: h in hunks ==> End(h) <= end
    ensures Placed(lines[..end], hunks, from)
    ensures Patched(lines, hunks, from) == Patched(lines[..end], hunks, from) + lines[end..]
  {
    if hunks == [] {
      assert lines[from..] == lines[..end][from..] + lines[end..];
    } else {
      var h, rest := hunks[0], hunks[1..];
      ShorterHunk(lines, end, h, from);
      forall g | g in rest ensures End(g) <= end {
      }
      PlacedInShorter(lines, end, rest, End(h));
      ShorterStep(lines, end, hunks, from);
    }
  }

  lemma ShorterStep(lines: seq<string>, end: nat, hunks: seq<Hunk>, from: int)
    requires hunks != [] && Placed(lines, hunks, from) && end <= |lines| && Placed(lines[..end], hunks, from)
    requires lines[..end][from..OldAt(hunks[0])] == lines[from..OldAt(hunks[0])]
    requires Patched(lines, hunks[1..], End(hunks[0]))
          == Patched(lines[..end], hunks[1..], End(hunks[0])) + lines[end..]
    ensures Patched(lines, hunks, from) == Patched(lines[..end], hunks, from) + lines[end..]
  {
    var h := hunks[0];
    PatchedUnfolds(lines, hunks, from);
    PatchedUnfolds(lines[..end], hunks, from);
    Regroup(lines[from..OldAt(h)] + h.newLines, Patched(lines[..end], hunks[1..], End(h)), lines[end..]);
  }

  lemma {:induction false} EndsInOrder(lines: seq<string>, hunks: seq<Hunk>, from: int, i: nat, j: nat)
    requires Placed(lines, hunks, from) && i < |hunks| && j < |hunks|
    ensures Fits(lines, hunks[i]) && from <= OldAt(hunks[i])
    ensures i < j ==> End(hunks[i]) <= OldAt(hunks[j])
  {
    if i > 0 && j > 0 {
      EndsInOrder(lines, hunks[1..], End(hunks[0]), i - 1, j - 1);
    } else if i > 0 {
      EndsInOrder(lines, hunks[1..], End(hunks[0]), i - 1, i - 1);
    } else if j > 0 {
      EndsInOrder(lines, hunks[1..], End(hunks[0]), j - 1, j - 1);
    }
  }

  lemma {:induction false} PlacedOfSnoc(lines: seq<string>, init: seq<Hunk>, h: Hunk, from: int)
    requires Placed(lines, init + [h], from)
    ensures Fits(lines, h) && from <= OldAt(h) && Placed(lines[..OldAt(h)], init, from)
  {
    if init == [] {
      assert init + [h] == [h];
    } else {
      assert (init + [h])[1..] == init[1..] + [h];
      PlacedOfSnoc(lines, init[1..], h, End(init[0]));
      ShorterHunk(lines, OldAt(h), init[0], from);
    }
  }

  lemma {:induction false} PatchedOfSnoc(lines: seq<string>, init: seq<Hunk>, h: Hunk, from: int)
    requires Placed(lines, init + [h], from) && Fits(lines, h) && Placed(lines[..OldAt(h)], init, from)
    ensures Patched(lines, init + [h], from) == Patched(lines[..OldAt(h)], init, from) + h.newLines + lines[End(h)..]
  {
    if init == [] {
      assert init + [h] == [h];
      PatchedOfOne(lines, h, from);
    } else {
      var g, rest := init[0], init[1..];
      assert (init + [h])[1..] == rest + [h];
      PlacedOfSnoc(lines, rest, h, End(g));
      PatchedOfSnoc(lines, rest, h, End(g));
      PatchedOfSnocStep(lines, g, rest, h, from);
      HeadAndTail(init);
      Regroup([g], rest, [h]);
    }
  }

  lemma PatchedOfOne(lines: seq<string>, h: Hunk, from: int)
    requires Placed(lines, [h], from)
    ensures Patched(lines, [h], from) == Patched(lines[..OldAt(h)], [], from) + h.newLines + lines[End(h)..]
  {
    assert [h][1..] == [];
    assert lines[..OldAt(h)][from..] == lines[from..OldAt(h)];
  }

  lemma PatchedOfSnocStep(lines: seq<string>, g: Hunk, rest: seq<Hunk>, h: Hunk, from: int)
    requires Fits(lines, h) && Fits(lines[..OldAt(h)], g) && Fits(lines, g) && 0 <= from <= OldAt(g)
    requires Placed(lines, rest + [h], End(g)) && Placed(lines[..OldAt(h)], rest, End(g))
    requires Patched(lines, rest + [h], End(g))
          == Patched(lines[..OldAt(h)], rest, End(g)) + h.newLines + lines[End(h)..]
    ensures Placed(lines, [g] + (rest + [h]), from) && Placed(lines[..OldAt(h)], [g] + rest, from)
    ensures Patched(lines, [g] + (rest + [h]), from)
         == Patched(lines[..OldAt(h)], [g] + rest, from) + h.newLines + lines[End(h)..]
  {
    PatchedOfCons(lines, g, rest + [h], from);
    PatchedOfCons(lines[..OldAt(h)], g, rest, from);
    ShorterHunk(lines, OldAt(h), g, from);
    RegroupFour(lines[from..OldAt(g)] + g.newLines, Patched(lines[..OldAt(h)], rest, End(g)),
                h.newLines, lines[End(h)..]);
  }

  /** The last hunk, split off. */
  lemma LastHunk(lines: seq<string>, hunks: seq<Hunk>)
    requires Placed(lines, hunks, 0) && hunks != []
    ensures var init, h := hunks[..|hunks| - 1], Last(hunks);
      && Fits(lines, h) && Placed(lines[..OldAt(h)], init, 0)
      && Patched(lines, hunks, 0) == Patched(lines[..OldAt(h)], init, 0) + h.newLines + lines[End(h)..]
  {
    InitAndLast(hunks);
    PlacedOfSnoc(lines, hunks[..|hunks| - 1], Last(hunks), 0);
    PatchedOfSnoc(lines, hunks[..|hunks| - 1], Last(hunks), 0);
  }

  lemma {:induction false} PatchedCount(lines: seq<string>, hunks: seq<Hunk>)
    requires Placed(lines, hunks, 0)
    ensures |Patched(lines, hunks, 0)| == |lines| + Growth(hunks)
    decreases |hunks|
  {
    if hunks == [] {
    } else {
      LastHunk(lines, hunks);
      PatchedCount(lines[..OldAt(Last(hunks))], hunks[..|hunks| - 1]);
    }
  }

  lemma {:induction false} NewPositions(lines: seq<string>, hunks: seq<Hunk>, i: nat)
    requires Placed(lines, hunks, 0) && Aligned(hunks, 0) && i < |hunks|
    ensures NewAt(hunks[i]) == OldAt(hunks[i]) + Growth(hunks[..i])
  {
    if i == 0 {
    } else {
      NewPositions(lines, hunks, i - 1);
      EndsInOrder(lines, hunks, 0, i - 1, i);
      assert hunks[..i][..i - 1] == hunks[..i - 1];
    }
  }

  lemma EndOfParts(front: seq<string>, side: seq<string>, tail: seq<string>)
    ensures var whole := front + side + tail;
      && (tail != [] ==> whole != [] && Last(whole) == Last(tail))
      && (tail == [] && side != [] ==> whole != [] && Last(whole) == Last(side))
      && (tail == [] && side == [] ==> whole == front)
  {
  }

  lemma {:induction false} LineBeforeInShorter(lines: seq<string>, end: nat, hunks: seq<Hunk>, at: int)
    requires at <= end <= |lines|
    ensures LineBefore(lines[..end], hunks, at) == LineBefore(lines, hunks, at)
    decreases |hunks|
  {
    if hunks == [] {
    } else if End(Last(hunks)) == at {
      LineBeforeInShorter(lines, end, hunks[..|hunks| - 1], OldAt(Last(hunks)));
    }
  }

  /** The last of the patched lines can be read off the old lines and the hunks. */
  lemma {:induction false} LineBeforeMeaning(lines: seq<string>, hunks: seq<Hunk>)
    requires Placed(lines, hunks, 0)
    ensures var patched := Patched(lines, hunks, 0);
      LineBefore(lines, hunks, |lines|) == if patched == [] then None else Some(Last(patched))
    decreases |hunks|
  {
    if hunks == [] {
      assert lines[0..] == lines;
    } else {
      var init, h := hunks[..|hunks| - 1], Last(hunks);
      var at := OldAt(h);
      LastHunk(lines, hunks);
      EndOfParts(Patched(lines[..at], init, 0), h.newLines, lines[End(h)..]);
      if End(h) == |lines| {
        LineBeforeMeaning(lines[..at], init);
        LineBeforeInShorter(lines, at, init, at);
      }
    }
  }

  // --- splicing a text that lost its last line; `chosen` are hunks of that text

  lemma BackwardsIsPatched(lines: seq<string>, hunks: seq<Hunk>)
    requires Placed(lines, hunks, 0)
    ensures SplicedBackwards(lines, hunks) == Patched(lines, hunks, 0)
  {
    SelectedAll(hunks, Indexes(hunks));
    SelectedReading(lines, hunks, 0, Indexes(hunks));
    BackwardsIsEdited(lines, hunks, 0, Indexes(hunks));
    assert lines[..0] == [];
  }

  lemma {:induction false} BackwardsOfSnoc(lines: seq<string>, init: seq<Hunk>, h: Hunk)
    ensures SplicedBackwards(lines, init + [h]) == SplicedBackwards(ApplyOneHunkToOld(lines, h), init)
  {
    if init == [] {
      assert init + [h] == [h] && [h][1..] == [];
    } else {
      assert (init + [h])[1..] == init[1..] + [h];
      BackwardsOfSnoc(lines, init[1..], h);
    }
  }

  lemma AllEndBefore(lines: seq<string>, hunks: seq<Hunk>, end: int)
    requires Placed(lines, hunks, 0) && hunks != [] && End(Last(hunks)) <= end
    ensures forall h :: h in hunks ==> End(h) <= end
  {
    forall h | h in hunks ensures End(h) <= end {
      var i :| 0 <= i < |hunks| && hunks[i] == h;
      EndsInOrder(lines, hunks, 0, i, |hunks| - 1);
    }
  }

  /** Hunks that end before the lost line do not miss it. */
  lemma LostLineStays(front: seq<string>, x: string, chosen: seq<Hunk>)
    requires Placed(front + [x], chosen, 0) && (chosen != [] ==> End(Last(chosen)) <= |front|)
    ensures Placed(front, chosen, 0)
    ensures SplicedBackwards(front, chosen) + [x] == Patched(front + [x], chosen, 0)
  {
    if chosen != [] {
      AllEndBefore(front + [x], chosen, |front|);
    }
    PlacedInShorter(front + [x], |front|, chosen, 0);
    assert (front + [x])[..|front|] == front && (front + [x])[|front|..] == [x];
    BackwardsIsPatched(front, chosen);
  }

  /** A hunk that replaces up to the end does not need the lost line. */
  lemma LostLineReplaced(front: seq<string>, x: string, chosen: seq<Hunk>)
    requires Placed(front + [x], chosen, 0) && chosen != []
    requires End(Last(chosen)) == |front| + 1 && Last(chosen).oldCount > 0
    ensures SplicedBackwards(front, chosen) == Patched(front + [x], chosen, 0)
  {
    var init, h := chosen[..|chosen| - 1], Last(chosen);
    InitAndLast(chosen);
    BackwardsOfSnoc(front, init, h);
    BackwardsOfSnoc(front + [x], init, h);
    LastHunk(front + [x], chosen);
    TailReplaced(front, x, h);
    BackwardsIsPatched(front + [x], chosen);
  }

  lemma TailReplaced(front: seq<string>, x: string, h: Hunk)
    requires 0 <= OldAt(h) && End(h) == |front| + 1 && h.oldCount > 0
    ensures ApplyOneHunkToOld(front, h) == ApplyOneHunkToOld(front + [x], h)
  {
    assert Take(front, OldAt(h)) == Take(front + [x], OldAt(h));
  }

  lemma ExtraNewline(lines: seq<string>)
    requires lines != []
    ensures JoinLines(lines + [""], true) != JoinLines(lines, true)
  {
    JoinOfAppend(lines, "");
    assert |Join(lines + [""])| == |Join(lines)| + 1;
  }

  lemma EndsDiffer(a: seq<string>, b: seq<string>)
    requires NewlineFree(b) && b != [] && Last(b) != ""
    ensures JoinLines(a, true) != JoinLines(b, false)
  {
    var left := JoinLines(a, true);
    assert left[|left| - 1] == '\n';
    JoinEndsLikeLines(b);
  }

  lemma FlagsDiffer(lines: seq<string>)
    ensures JoinLines(lines, true) != JoinLines(lines, false)
  {
    if lines != [] {
      assert |Join(lines) + "\n"| == |Join(lines)| + 1;
    }
  }

  lemma LostLineJoins(lines: seq<string>)
    ensures JoinLines(lines, true) == JoinLines(lines + [""], false) <==> lines != []
    ensures JoinLines(lines, false) == JoinLines(lines + [""], false) <==> lines == []
  {
    if lines == [] {
      assert lines + [""] == [""];
    } else {
      JoinOfAppend(lines, "");
      assert Join(lines) + "\n" + "" == Join(lines) + "\n";
      assert |Join(lines) + "\n"| == |Join(lines)| + 1;
    }
  }

  // --- a deletion at the very end is put back

  ghost function NewWidth(hunks: seq<Hunk>): nat {
    if hunks == [] then 0 else NewWidth(hunks[1..]) + Width(hunks[0].newLines)
  }

  ghost function NewTotal(hunks: seq<Hunk>): nat {
    if hunks == [] then 0 else NewTotal(hunks[1..]) + |hunks[0].newLines|
  }

  lemma InsertionGrows(lines: seq<string>, at: int, added: seq<string>)
    ensures |ReplaceRange(lines, at, 0, added)| == |lines| + |added|
    ensures Width(ReplaceRange(lines, at, 0, added)) == Width(lines) + Width(added)
  {
    var front, back := Take(lines, at), Drop(lines, at);
    assert lines == front + back;
    WidthOfAppend(front, back);
    WidthOfAppend(front, added);
    WidthOfAppend(front + added, back);
  }

  /** Pure insertions only add lines, wherever the clamped positions put them. */
  lemma {:induction false} InsertionsGrow(lines: seq<string>, inserts: seq<Hunk>)
    requires forall h :: h in inserts ==> h.oldCount == 0
    ensures |SplicedBackwards(lines, inserts)| == |lines| + NewTotal(inserts)
    ensures Width(SplicedBackwards(lines, inserts)) == Width(lines) + NewWidth(inserts)
  {
    if inserts == [] {
    } else {
      InsertionsGrow(lines, inserts[1..]);
      InsertionGrows(SplicedBackwards(lines, inserts[1..]), inserts[0].oldStart, inserts[0].newLines);
    }
  }

  lemma OnlyInsertions(chosen: seq<Hunk>)
    requires Placed([""], chosen, 0) && Ascending(chosen) && chosen != []
    requires Last(chosen).oldCount == 0 && End(Last(chosen)) == 1
    ensures forall h :: h in chosen ==> h.oldCount == 0
    ensures NewTotal(chosen) > 0
  {
    forall h | h in chosen ensures h.oldCount == 0 {
      var i :| 0 <= i < |chosen| && chosen[i] == h;
      EndsInOrder([""], chosen, 0, i, |chosen| - 1);
    }
    EndsInOrder([""], chosen, 0, 0, 0);
  }

  /** On the empty text the inserted lines come out without the break in front of them. */
  lemma InsertedIntoNothing(chosen: seq<Hunk>)
    requires Placed([""], chosen, 0) && Ascending(chosen) && chosen != []
    requires Last(chosen).oldCount == 0 && End(Last(chosen)) == 1
    ensures JoinLines(SplicedBackwards([], chosen), false) != JoinLines(Patched([""], chosen, 0), false)
  {
    OnlyInsertions(chosen);
    BackwardsIsPatched([""], chosen);
    InsertionsGrow([], chosen);
    InsertionsGrow([""], chosen);
    assert Width([""]) == 0 by {
      assert Width([""][1..]) == 0;
    }
    JoinLength(SplicedBackwards([], chosen));
    JoinLength(SplicedBackwards([""], chosen));
  }

  // --- all that can happen to a lost line

  /** The hunks put a text back together that lost its empty last line. */
  ghost predicate LineRecovered(patched: seq<string>, chosen: seq<Hunk>)
    requires Placed(patched, chosen, 0)
  {
    chosen == [] ||
    if |patched| == 1 then End(Last(chosen)) == 1 == Last(chosen).oldCount
    else End(Last(chosen)) < |patched| && |Patched(patched, chosen, 0)| != 1
  }

  lemma LastIsInside(lines: seq<string>, hunks: seq<Hunk>)
    requires Placed(lines, hunks, 0) && hunks != []
    ensures 0 <= OldAt(Last(hunks)) && End(Last(hunks)) <= |lines| && Fits(lines, Last(hunks))
  {
    EndsInOrder(lines, hunks, 0, |hunks| - 1, |hunks| - 1);
  }

  lemma SplicingAfterLoss(front: seq<string>, chosen: seq<Hunk>)
    requires Placed(front + [""], chosen, 0) && Ascending(chosen)
    requires NewlineFree(Patched(front + [""], chosen, 0))
    requires chosen != [] && End(Last(chosen)) == |front| + 1 && Last(chosen).oldCount == 0 ==>
               Last(chosen).newLines != [] && Last(Last(chosen).newLines) != ""
    ensures JoinLines(SplicedBackwards(front, chosen), front != [])
         == JoinLines(Patched(front + [""], chosen, 0), false)
       <==> LineRecovered(front + [""], chosen)
  {
    var wanted := Patched(front + [""], chosen, 0);
    if chosen == [] {
      assert (front + [""])[0..] == front + [""];
      LostLineJoins(front);
    } else {
      LastIsInside(front + [""], chosen);
      if End(Last(chosen)) <= |front| {
        SplicingWhenStays(front, chosen);
      } else if Last(chosen).oldCount > 0 {
        LostLineReplaced(front, "", chosen);
        FlagsDiffer(wanted);
      } else if front == [] {
        assert front + [""] == [""];
        InsertedIntoNothing(chosen);
      } else {
        LastHunk(front + [""], chosen);
        EndsDiffer(SplicedBackwards(front, chosen), wanted);
      }
    }
  }

  lemma SplicingWhenStays(front: seq<string>, chosen: seq<Hunk>)
    requires Placed(front + [""], chosen, 0) && chosen != [] && End(Last(chosen)) <= |front|
    ensures JoinLines(SplicedBackwards(front, chosen), front != [])
         == JoinLines(Patched(front + [""], chosen, 0), false)
       <==> front != [] && |Patched(front + [""], chosen, 0)| != 1
  {
    LostLineStays(front, "", chosen);
    LostLineJoins(SplicedBackwards(front, chosen));
    if front == [] {
      SomethingInserted(chosen);
    }
  }

  lemma SomethingInserted(chosen: seq<Hunk>)
    requires Placed([], chosen, 0) && chosen != []
    ensures SplicedBackwards([], chosen) != []
  {
    BackwardsIsPatched([], chosen);
    PatchedUnfolds([], chosen, 0);
  }

  // --- the hunks of a patch, seen from the new side

  lemma FlipLast(hunks: seq<Hunk>)
    requires hunks != []
    ensures Last(FlipAll(hunks)) == Flip(Last(hunks))
  {
  }

  /** A deletion at the end of the new lines is the last hunk, at the end of the old lines. */
  lemma FinalDeletion(lines: seq<string>, hunks: seq<Hunk>, h: Hunk)
    requires WellFormed(lines, hunks) && Untied(hunks) && h in hunks && h.newCount == 0
    requires NewAt(h) == |lines| + Growth(hunks)
    ensures h == Last(hunks) && End(h) == |lines| && h.oldLines != [] && lines != []
    ensures Last(h.oldLines) == Last(lines)
  {
    var i :| 0 <= i < |hunks| && hunks[i] == h;
    PatchedReading(lines, hunks, {});
    PatchedSize(lines, hunks);
    assert FlipAll(hunks)[i] == Flip(h);
    NothingStartsBehindEnd(Edited(lines, hunks, 0, Indexes(hunks)), FlipAll(hunks), i);
    LastEndsAtEnd(lines, hunks);
  }

  lemma NothingStartsBehindEnd(lines: seq<string>, hunks: seq<Hunk>, i: nat)
    requires Placed(lines, hunks, 0) && Ascending(hunks) && i < |hunks|
    requires hunks[i].oldCount == 0 && OldAt(hunks[i]) == |lines|
    ensures i == |hunks| - 1
  {
    var n := |hunks| - 1;
    EndsInOrder(lines, hunks, 0, n, n);
    StartsBefore(hunks, i, n);
  }

  lemma StartsBefore(hunks: seq<Hunk>, i: nat, j: nat)
    requires Ascending(hunks) && i < |hunks| && j < |hunks|
    ensures i < j ==> hunks[i].oldStart < hunks[j].oldStart
  {
  }

  lemma LastEndsAtEnd(lines: seq<string>, hunks: seq<Hunk>)
    requires WellFormed(lines, hunks) && hunks != []
    requires Last(hunks).newCount == 0 && NewAt(Last(hunks)) == |lines| + Growth(hunks)
    ensures End(Last(hunks)) == |lines| && Last(hunks).oldLines != [] && lines != []
    ensures Last(Last(hunks).oldLines) == Last(lines)
  {
    var n := |hunks| - 1;
    EndsInOrder(lines, hunks, 0, n, n);
    NewPositions(lines, hunks, n);
  }

  lemma AllIsPatched(lines: seq<string>, hunks: seq<Hunk>)
    requires Placed(lines, hunks, 0)
    ensures Edited(lines, hunks, 0, Indexes(hunks)) == Patched(lines, hunks, 0)
  {
    SelectedAll(hunks, Indexes(hunks));
    SelectedReading(lines, hunks, 0, Indexes(hunks));
  }

  lemma PatchedSize(lines: seq<string>, hunks: seq<Hunk>)
    requires Placed(lines, hunks, 0)
    ensures |Edited(lines, hunks, 0, Indexes(hunks))| == |lines| + Growth(hunks)
  {
    AllIsPatched(lines, hunks);
    PatchedCount(lines, hunks);
  }

  lemma KeepsLinesMeaning(oldContent: string, hunks: seq<Hunk>)
    requires Placed(SplitLines(oldContent).lines, hunks, 0)
    ensures var parsed := SplitLines(oldContent);
      KeepsLines(oldContent, hunks)
      <==> Rejoinable(Edited(parsed.lines, hunks, 0, Indexes(hunks)), parsed.endedWithNewline)
  {
    AllIsPatched(SplitLines(oldContent).lines, hunks);
    PatchedCount(SplitLines(oldContent).lines, hunks);
    LineBeforeMeaning(SplitLines(oldContent).lines, hunks);
  }

  /** The chosen hunks, turned round, are hunks of the patched lines and lead to the wanted lines. */
  lemma ChosenOnPatched(lines: seq<string>, hunks: seq<Hunk>, indexes: set<nat>)
    requires WellFormed(lines, hunks) && Untied(hunks)
    ensures var patched := Edited(lines, hunks, 0, Indexes(hunks));
      var chosen := Selected(FlipAll(hunks), indexes);
      && Placed(patched, chosen, 0) && Ascending(chosen)
      && Patched(patched, chosen, 0) == Edited(lines, hunks, 0, Indexes(hunks) - indexes)
  {
    PatchedReading(lines, hunks, indexes);
    SelectedReading(Edited(lines, hunks, 0, Indexes(hunks)), FlipAll(hunks), 0, indexes);
    SelectedAscends(FlipAll(hunks), indexes);
  }

  /** The contents as joined lines: patched, with only the other hunks applied, and reverted on any lines. */
  lemma ContentsAsLines(oldContent: string, hunks: seq<Hunk>, indexes: set<nat>)
    requires var lines := SplitLines(oldContent).lines; WellFormed(lines, hunks) && Untied(hunks)
    ensures var parsed := SplitLines(oldContent);
      var patched := Edited(parsed.lines, hunks, 0, Indexes(hunks));
      var wanted := Edited(parsed.lines, hunks, 0, Indexes(hunks) - indexes);
      var chosen := Selected(FlipAll(hunks), indexes);
      && ApplyContent(oldContent, hunks) == JoinLines(patched, parsed.endedWithNewline)
      && Expected(oldContent, hunks, indexes) == JoinLines(wanted, parsed.endedWithNewline)
      && Placed(patched, chosen, 0) && Patched(patched, chosen, 0) == wanted && Ascending(chosen)
      && forall x :: Unspliced(x, ByNewStartDescending(Selected(hunks, indexes))) == SplicedBackwards(x, chosen)
  {
    var parsed := SplitLines(oldContent);
    var chosen := Selected(FlipAll(hunks), indexes);
    ApplyingAll(parsed.lines, hunks);
    ApplyingSelected(parsed.lines, hunks, Indexes(hunks) - indexes);
    ChosenOnPatched(parsed.lines, hunks, indexes);
    forall x ensures Unspliced(x, ByNewStartDescending(Selected(hunks, indexes))) == SplicedBackwards(x, chosen) {
      RevertIsApply(x, hunks, indexes);
      SortedSplice(x, chosen);
    }
  }

  // --- the cases

  lemma JoinIsInjective(a: seq<string>, b: seq<string>, endedWithNewline: bool)
    requires NewlineFree(a) && NewlineFree(b) && |a| == |b|
    ensures JoinLines(a, endedWithNewline) == JoinLines(b, endedWithNewline) <==> a == b
  {
    if a != [] {
      SplitOfJoin(a);
      SplitOfJoin(b);
      assert (Join(a) + "\n")[..|Join(a)|] == Join(a) && (Join(b) + "\n")[..|Join(b)|] == Join(b);
    }
  }

  lemma RevertIsNewlineFree(lines: seq<string>, h: Hunk)
    requires NewlineFree(lines) && NewlineFree(h.oldLines)
    ensures NewlineFree(RevertOneHunkOnNew(lines, h))
  {
  }

  lemma {:induction false} UnsplicedIsNewlineFree(lines: seq<string>, ordered: seq<Hunk>)
    requires NewlineFree(lines) && forall h :: h in ordered ==> NewlineFree(h.oldLines)
    ensures NewlineFree(Unspliced(lines, ordered))
  {
    if ordered == [] {
    } else {
      UnsplicedIsNewlineFree(lines, ordered[..|ordered| - 1]);
      RevertIsNewlineFree(Unspliced(lines, ordered[..|ordered| - 1]), ordered[|ordered| - 1]);
    }
  }

  lemma RevertedIsNewlineFree(lines: seq<string>, hunks: seq<Hunk>, indexes: set<nat>)
    requires NewlineFree(lines) && LinesOf(hunks)
    ensures NewlineFree(Unspliced(lines, ByNewStartDescending(Selected(hunks, indexes))))
  {
    var ordered := ByNewStartDescending(Selected(hunks, indexes));
    forall h | h in ordered ensures NewlineFree(h.oldLines) {
      SortMember(Selected(hunks, indexes), NewStartKey, h);
      SelectedMember(hunks, indexes, h);
    }
    UnsplicedIsNewlineFree(lines, ordered);
  }

  /** The revert loop leaves as many lines as the wanted ones, in whatever order it puts them. */
  lemma RevertedSize(lines: seq<string>, hunks: seq<Hunk>, indexes: set<nat>)
    requires WellFormed(lines, hunks)
    ensures |Unspliced(Edited(lines, hunks, 0, Indexes(hunks)), ByNewStartDescending(Selected(hunks, indexes)))|
         == |Edited(lines, hunks, 0, Indexes(hunks) - indexes)|
  {
    var patched := Edited(lines, hunks, 0, Indexes(hunks));
    PatchedReading(lines, hunks, indexes);
    RevertIsApply(patched, hunks, indexes);
    SelectedReading(patched, FlipAll(hunks), 0, indexes);
    SplicedIsTurned(patched, Selected(FlipAll(hunks), indexes), 0);
    TurnedLength(patched, Selected(FlipAll(hunks), indexes), 0);
  }

  /** What the patched content splits into when no line is lost. */
  lemma AppliedSplits(oldContent: string, hunks: seq<Hunk>)
    requires var lines := SplitLines(oldContent).lines;
      Placed(lines, hunks, 0) && LinesOf(hunks) && TiesAgree(lines, hunks, 0)
    requires KeepsLines(oldContent, hunks)
    ensures var parsed := SplitLines(oldContent);
      SplitLines(ApplyContent(oldContent, hunks))
      == Parsed(Edited(parsed.lines, hunks, 0, Indexes(hunks)), parsed.endedWithNewline)
  {
    var parsed := SplitLines(oldContent);
    SplitLinesIsRejoinable(oldContent);
    SplicedIsPatched(parsed.lines, hunks);
    AllIsPatched(parsed.lines, hunks);
    KeepsLinesMeaning(oldContent, hunks);
    EditedIsNewlineFree(parsed.lines, hunks, 0, Indexes(hunks));
    SplitOfJoinLines(Edited(parsed.lines, hunks, 0, Indexes(hunks)), parsed.endedWithNewline);
  }

  /**
   * With ties, as long as no line is lost in joining: if the patch and the wanted hunks apply right,
   * reverting gives the wanted content exactly when the chosen hunks' ties agree on the new side.
   */
  lemma RevertOnTiedContent(oldContent: string, hunks: seq<Hunk>, indexes: set<nat>)
    requires WellFormed(SplitLines(oldContent).lines, hunks) && LinesOf(hunks)
    requires AppliesRight(oldContent, hunks, indexes)
    ensures var patched := Edited(SplitLines(oldContent).lines, hunks, 0, Indexes(hunks));
      && Placed(patched, Selected(FlipAll(hunks), indexes), 0)
      && (RevertContent(ApplyContent(oldContent, hunks), hunks, indexes) == Expected(oldContent, hunks, indexes)
          <==> TiesAgree(patched, Selected(FlipAll(hunks), indexes), 0))
  {
    var parsed := SplitLines(oldContent);
    var patched := Edited(parsed.lines, hunks, 0, Indexes(hunks));
    var others := Indexes(hunks) - indexes;
    AppliedSplits(oldContent, hunks);
    RevertingExactly(parsed.lines, hunks, indexes);
    ApplyingExactly(parsed.lines, hunks, others);
    SplitLinesIsRejoinable(oldContent);
    EditedIsNewlineFree(parsed.lines, hunks, 0, Indexes(hunks));
    EditedIsNewlineFree(parsed.lines, hunks, 0, others);
    RevertedIsNewlineFree(patched, hunks, indexes);
    RevertedSize(parsed.lines, hunks, indexes);
    JoinIsInjective(Unspliced(patched, ByNewStartDescending(Selected(hunks, indexes))),
                    Edited(parsed.lines, hunks, 0, others), parsed.endedWithNewline);
  }

  /** Without ties there is nothing to agree on. */
  lemma NothingTied(lines: seq<string>, hunks: seq<Hunk>, indexes: set<nat>)
    requires WellFormed(lines, hunks) && Untied(hunks)
    ensures TiesAgree(lines, hunks, 0) && TiesMayAgree(lines, Selected(hunks, Indexes(hunks) - indexes))
    ensures TiesMayAgree(Edited(lines, hunks, 0, Indexes(hunks)), Selected(FlipAll(hunks), indexes))
  {
    var others := Selected(hunks, Indexes(hunks) - indexes);
    UntiedAgree(lines, hunks, 0);
    SelectedReading(lines, hunks, 0, Indexes(hunks) - indexes);
    SelectedAscends(hunks, Indexes(hunks) - indexes);
    UntiedAgree(lines, others, 0);
    ChosenOnPatched(lines, hunks, indexes);
    UntiedAgree(Edited(lines, hunks, 0, Indexes(hunks)), Selected(FlipAll(hunks), indexes), 0);
  }

  lemma RevertWhenKept(oldContent: string, hunks: seq<Hunk>, indexes: set<nat>)
    requires var lines := SplitLines(oldContent).lines; WellFormed(lines, hunks) && Untied(hunks) && LinesOf(hunks)
    requires KeepsLines(oldContent, hunks)
    ensures RevertContent(ApplyContent(oldContent, hunks), hunks, indexes) == Expected(oldContent, hunks, indexes)
  {
    NothingTied(SplitLines(oldContent).lines, hunks, indexes);
    RevertOnTiedContent(oldContent, hunks, indexes);
  }

  lemma RevertWhenAllDeleted(oldContent: string, hunks: seq<Hunk>, indexes: set<nat>)
    requires var lines := SplitLines(oldContent).lines; WellFormed(lines, hunks) && Untied(hunks)
    requires var parsed := SplitLines(oldContent);
      parsed.endedWithNewline && Edited(parsed.lines, hunks, 0, Indexes(hunks)) == []
    ensures RevertContent(ApplyContent(oldContent, hunks), hunks, indexes) == Expected(oldContent, hunks, indexes)
       <==> Selected(hunks, indexes) == []
  {
    var chosen := Selected(FlipAll(hunks), indexes);
    ContentsAsLines(oldContent, hunks, indexes);
    FlipSelected(hunks, indexes);
    assert SplitLines("\n") == Parsed([""], true) by {
      assert Split("") == [""];
    }
    NothingLeft(chosen);
  }

  lemma NothingLeft(chosen: seq<Hunk>)
    requires Placed([], chosen, 0) && Ascending(chosen)
    ensures JoinLines(SplicedBackwards([""], chosen), true) == JoinLines(Patched([], chosen, 0), true) <==> chosen == []
  {
    if chosen == [] {
    } else {
      AllAtStart(chosen);
      ExtraNewline(chosen[0].newLines);
    }
  }

  lemma AllAtStart(chosen: seq<Hunk>)
    requires Placed([], chosen, 0) && Ascending(chosen) && chosen != []
    ensures chosen[0].newLines != [] && Patched([], chosen, 0) == chosen[0].newLines
    ensures SplicedBackwards([""], chosen) == chosen[0].newLines + [""]
  {
    EndsInOrder([], chosen, 0, 0, |chosen| - 1);
    assert |chosen| == 1;
    assert chosen[1..] == [];
    assert SplicedBackwards([""], []) == [""];
    assert Patched([], chosen[1..], 0) == [];
  }

  lemma RevertWhenLineLost(oldContent: string, hunks: seq<Hunk>, indexes: set<nat>)
    requires var lines := SplitLines(oldContent).lines; WellFormed(lines, hunks) && Untied(hunks) && LinesOf(hunks)
    requires !SplitLines(oldContent).endedWithNewline
    requires var patched := Edited(SplitLines(oldContent).lines, hunks, 0, Indexes(hunks));
      patched != [] && Last(patched) == ""
    ensures var patched := Edited(SplitLines(oldContent).lines, hunks, 0, Indexes(hunks));
      var chosen := Selected(FlipAll(hunks), indexes);
      && Placed(patched, chosen, 0)
      && (RevertContent(ApplyContent(oldContent, hunks), hunks, indexes) == Expected(oldContent, hunks, indexes)
          <==> LineRecovered(patched, chosen))
  {
    var lines := SplitLines(oldContent).lines;
    var patched := Edited(lines, hunks, 0, Indexes(hunks));
    var front := patched[..|patched| - 1];
    InitAndLast(patched);
    ContentsAsLines(oldContent, hunks, indexes);
    SplitLinesIsRejoinable(oldContent);
    EditedIsNewlineFree(lines, hunks, 0, Indexes(hunks));
    EditedIsNewlineFree(lines, hunks, 0, Indexes(hunks) - indexes);
    SplitOfLost(front);
    LastChosenDeletion(lines, hunks, indexes);
    SplicingAfterLoss(front, Selected(FlipAll(hunks), indexes));
  }

  lemma SplitOfLost(front: seq<string>)
    requires NewlineFree(front + [""])
    ensures SplitLines(JoinLines(front + [""], false)) == Parsed(front, front != [])
  {
    if front == [] {
      assert front + [""] == [""];
    } else {
      LostEmptyLine(front + [""]);
      assert (front + [""])[..|front|] == front;
    }
  }

  lemma LastChosenDeletion(lines: seq<string>, hunks: seq<Hunk>, indexes: set<nat>)
    requires WellFormed(lines, hunks) && Untied(hunks) && Rejoinable(lines, false)
    ensures var chosen := Selected(FlipAll(hunks), indexes);
      && chosen != [] && End(Last(chosen)) == |Edited(lines, hunks, 0, Indexes(hunks))| && Last(chosen).oldCount == 0
      ==> Last(chosen).newLines != [] && Last(Last(chosen).newLines) != ""
  {
    var chosen := Selected(FlipAll(hunks), indexes);
    FlipSelected(hunks, indexes);
    PatchedSize(lines, hunks);
    if chosen != [] && End(Last(chosen)) == |lines| + Growth(hunks) && Last(chosen).oldCount == 0 {
      var h := Last(Selected(hunks, indexes));
      FlipLast(Selected(hunks, indexes));
      SelectedMember(hunks, indexes, h);
      FinalDeletion(lines, hunks, h);
    }
  }

  // --- the theorem

  lemma ConditionOnPatched(oldContent: string, hunks: seq<Hunk>, indexes: set<nat>)
    requires var lines := SplitLines(oldContent).lines; WellFormed(lines, hunks) && Untied(hunks)
    requires Selected(hunks, indexes) != [] && Edited(SplitLines(oldContent).lines, hunks, 0, Indexes(hunks)) != []
    ensures var lines := SplitLines(oldContent).lines;
      var patched := Edited(lines, hunks, 0, Indexes(hunks));
      var chosen := Selected(FlipAll(hunks), indexes);
      && Placed(patched, chosen, 0)
      && (LineRecovered(patched, chosen)
          <==> RecoversLine(|lines|, hunks, indexes, Last(Selected(hunks, indexes)), |lines| + Growth(hunks)))
  {
    var lines := SplitLines(oldContent).lines;
    ChosenOnPatched(lines, hunks, indexes);
    PatchedSize(lines, hunks);
    OthersSize(lines, hunks, Indexes(hunks) - indexes);
    FlipSelected(hunks, indexes);
    FlipLast(Selected(hunks, indexes));
    ConditionByCounts(Edited(lines, hunks, 0, Indexes(hunks)), Selected(FlipAll(hunks), indexes),
                      |lines|, hunks, indexes);
  }

  lemma OthersSize(lines: seq<string>, hunks: seq<Hunk>, on: set<nat>)
    requires Placed(lines, hunks, 0)
    ensures |Edited(lines, hunks, 0, on)| == |lines| + Growth(Selected(hunks, on))
  {
    SelectedReading(lines, hunks, 0, on);
    PatchedCount(lines, Selected(hunks, on));
  }

  lemma ConditionByCounts(patched: seq<string>, chosen: seq<Hunk>, oldCount: nat, hunks: seq<Hunk>, indexes: set<nat>)
    requires Placed(patched, chosen, 0) && Selected(hunks, indexes) != [] && chosen != [] && patched != []
    requires Last(chosen) == Flip(Last(Selected(hunks, indexes))) && |patched| == oldCount + Growth(hunks)
    requires |Patched(patched, chosen, 0)| == oldCount + Growth(Selected(hunks, Indexes(hunks) - indexes))
    ensures LineRecovered(patched, chosen)
       <==> RecoversLine(oldCount, hunks, indexes, Last(Selected(hunks, indexes)), oldCount + Growth(hunks))
  {
  }

  /**
   * Reverting any subset of hunks on the patched content gives the old content with only the
   * other hunks applied, exactly when the subset is recoverable.
   */
  lemma RevertOnContent(oldContent: string, hunks: seq<Hunk>, indexes: set<nat>)
    requires var lines := SplitLines(oldContent).lines; WellFormed(lines, hunks) && Untied(hunks) && LinesOf(hunks)
    ensures RevertContent(ApplyContent(oldContent, hunks), hunks, indexes) == Expected(oldContent, hunks, indexes)
       <==> Recoverable(oldContent, hunks, indexes)
  {
    var parsed := SplitLines(oldContent);
    var patched := Edited(parsed.lines, hunks, 0, Indexes(hunks));
    PatchedSize(parsed.lines, hunks);
    KeepsLinesMeaning(oldContent, hunks);
    if KeepsLines(oldContent, hunks) {
      RevertWhenKept(oldContent, hunks, indexes);
    } else if parsed.endedWithNewline {
      RevertWhenAllDeleted(oldContent, hunks, indexes);
    } else {
      RevertWhenLineLost(oldContent, hunks, indexes);
      FlipSelected(hunks, indexes);
      if Selected(hunks, indexes) != [] {
        ConditionOnPatched(oldContent, hunks, indexes);
      }
    }
  }

  // ----- the real new file -----

  /** Applying a patch gives the new content exactly when old and new agree on the final newline. */
  lemma ApplyGivesNewContent(oldContent: string, newContent: string, hunks: seq<Hunk>)
    requires var lines := SplitLines(oldContent).lines;
      && Placed(lines, hunks, 0) && TiesAgree(lines, hunks, 0)
      && SplitLines(newContent).lines == Patched(lines, hunks, 0)
    ensures ApplyContent(oldContent, hunks) == newContent
       <==> SplitLines(oldContent).endedWithNewline == SplitLines(newContent).endedWithNewline
  {
    var lines := SplitLines(oldContent).lines;
    SplicedIsPatched(lines, hunks);
    JoinOfSplitLines(newContent);
    FlagsDiffer(Patched(lines, hunks, 0));
  }

  lemma SplicedIsPatched(lines: seq<string>, hunks: seq<Hunk>)
    requires Placed(lines, hunks, 0) && TiesAgree(lines, hunks, 0)
    ensures Spliced(lines, ByOldStartDescending(hunks)) == Patched(lines, hunks, 0)
  {
    SplicedIsTurned(lines, hunks, 0);
    TurnedIsPatched(lines, hunks, 0);
    assert lines[..0] == [];
  }

  /**
   * On the real new content nothing is lost: reverting any subset gives the lines with only the other
   * hunks applied, with the new content's final newline, so the wanted content exactly when both agree on it.
   */
  lemma RevertOnNewContent(oldContent: string, newContent: string, hunks: seq<Hunk>, indexes: set<nat>)
    requires var lines := SplitLines(oldContent).lines;
      WellFormed(lines, hunks) && SplitLines(newContent).lines == Edited(lines, hunks, 0, Indexes(hunks))
    requires var lines := SplitLines(oldContent).lines;
      && TiesMayAgree(lines, Selected(hunks, Indexes(hunks) - indexes))
      && TiesMayAgree(SplitLines(newContent).lines, Selected(FlipAll(hunks), indexes))
    ensures var lines := SplitLines(oldContent).lines;
      RevertContent(newContent, hunks, indexes)
      == JoinLines(Edited(lines, hunks, 0, Indexes(hunks) - indexes), SplitLines(newContent).endedWithNewline)
    ensures RevertContent(newContent, hunks, indexes) == Expected(oldContent, hunks, indexes)
       <==> SplitLines(oldContent).endedWithNewline == SplitLines(newContent).endedWithNewline
  {
    var lines := SplitLines(oldContent).lines;
    var others := Indexes(hunks) - indexes;
    ApplyingExactly(lines, hunks, others);
    RevertingExactly(lines, hunks, indexes);
    FlagsDiffer(Edited(lines, hunks, 0, others));
  }

  lemma PrintedPatch(hunks: seq<Hunk>, preamble: seq<string>, printed: seq<PrintedHunk>)
    requires NoHeaders(preamble) && forall i :: 0 <= i < |printed| ==> Printable(printed[i])
    requires hunks == HunksOf(printed, 0)
    ensures HunksIn(PrintPatch(preamble, printed)) == hunks && LinesOf(hunks)
  {
    ParseOfPrint(preamble, printed);
    SplitIsNewlineFree(PrintPatch(preamble, printed));
    ParsedHunksAreNewlineFree(Split(PrintPatch(preamble, printed)), 0);
  }

  /**
   * The whole journey: a patch that prints a well-formed hunk list is applied to a content and
   * then some of its hunks are reverted by index.
   */
  lemma PatchRoundTrip(
    oldContent: string, hunks: seq<Hunk>, preamble: seq<string>, printed: seq<PrintedHunk>, indexes: set<nat>)
    requires NoHeaders(preamble) && forall i :: 0 <= i < |printed| ==> Printable(printed[i])
    requires hunks == HunksOf(printed, 0) && WellFormed(SplitLines(oldContent).lines, hunks)
    ensures HunksIn(PrintPatch(preamble, printed)) == hunks
    ensures Untied(hunks) ==> (RevertsRight(oldContent, hunks, indexes) <==> Recoverable(oldContent, hunks, indexes))
    ensures AppliesRight(oldContent, hunks, indexes) ==>
      var patched := Edited(SplitLines(oldContent).lines, hunks, 0, Indexes(hunks));
      && Placed(patched, Selected(FlipAll(hunks), indexes), 0)
      && (RevertsRight(oldContent, hunks, indexes) <==> TiesAgree(patched, Selected(FlipAll(hunks), indexes), 0))
    ensures Indexes(hunks) <= indexes ==> Expected(oldContent, hunks, indexes) == oldContent
  {
    PrintedPatch(hunks, preamble, printed);
    if Untied(hunks) {
      RevertOnContent(oldContent, hunks, indexes);
    }
    if AppliesRight(oldContent, hunks, indexes) {
      RevertOnTiedContent(oldContent, hunks, indexes);
    }
    if Indexes(hunks) <= indexes {
      NothingExpected(oldContent, hunks);
      assert Indexes(hunks) - indexes == {};
    }
  }

  lemma {:induction false} NoneSelected(hunks: seq<Hunk>)
    ensures Selected(hunks, {}) == []
  {
    if hunks == [] {
    } else {
      NoneSelected(hunks[1..]);
    }
  }

  lemma NothingExpected(oldContent: string, hunks: seq<Hunk>)
    ensures ApplyContent(oldContent, Selected(hunks, {})) == oldContent
  {
    NoneSelected(hunks);
    JoinOfSplitLines(oldContent);
  }

  // ----- where it fails -----

  /** Deleting the only line of a text with a final newline, and putting it back, leaves an empty line more. */
  lemma OnlyLineIsNotPutBack(a: string)
    requires '\n' !in a
    ensures var deletion := [Hunk(0, 1, 1, 0, 0, [a], [])];
      && WellFormed(SplitLines(a + "\n").lines, deletion) && Untied(deletion) && LinesOf(deletion)
      && RevertContent(ApplyContent(a + "\n", deletion), deletion, {0}) != Expected(a + "\n", deletion, {0})
  {
    var h := Hunk(0, 1, 1, 0, 0, [a], []);
    OneLine(a);
    assert [h][1..] == [] && [h][..0] == [] && Placed([a], [], 1);
    assert FlipAll([h]) == [Flip(h)];
    assert Growth([h]) == Gain(h) == -1;
    assert Selected([h], {0}) == [h];
    RevertOnContent(a + "\n", [h], {0});
  }

  lemma OneLine(a: string)
    requires '\n' !in a
    ensures SplitLines(a + "\n") == Parsed([a], true)
  {
    assert Join([a]) == a;
    WithNewline([a]);
  }

  /** Two contents that differ in the final newline only: the patch has no hunks, and applying it changes nothing. */
  lemma FinalNewlineStays(lines: seq<string>)
    requires NewlineFree(lines) && lines != [] && Last(lines) != ""
    ensures var (before, after) := (JoinLines(lines, false), JoinLines(lines, true));
      && SplitLines(before).lines == lines == SplitLines(after).lines == Patched(lines, [], 0)
      && ApplyContent(before, []) == before != after
  {
    SplitOfJoinLines(lines, false);
    WithNewline(lines);
    FlagsDiffer(lines);
    assert lines[0..] == lines;
  }
}
