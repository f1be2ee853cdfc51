/**
 * Hunks that start at the same line (packages/contracts/src/gitHunks.ts): the stable sort keeps them in
 * patch order, so later ones are spliced in front of earlier ones. What comes out, and when that is right.
 */
module GitHunkTies {
  import opened Sequences
  import opened StableSort
  import opened GitHunks

  // ----- what ties look like -----

  /** How many hunks share the first one's start. */
  function TieCount(hunks: seq<Hunk>): (m: nat)
    requires hunks != []
    ensures 1 <= m <= |hunks|
  {
    if |hunks| > 1 && hunks[1].oldStart == hunks[0].oldStart then 1 + TieCount(hunks[1..]) else 1
  }

  lemma {:induction false} TiesShareStart(hunks: seq<Hunk>, i: nat)
    requires hunks != [] && i < TieCount(hunks)
    ensures hunks[i].oldStart == hunks[0].oldStart
  {
    if i == 0 {
    } else {
      TiesShareStart(hunks[1..], i - 1);
    }
  }

  /** Behind a tie there are only insertions, right at the end of the first hunk. */
  lemma TiedWithFirst(lines: seq<string>, hunks: seq<Hunk>, from: int)
    requires Placed(lines, hunks, from) && |hunks| > 1 && hunks[1].oldStart == hunks[0].oldStart
    ensures hunks[0].oldCount <= 1 && hunks[1].oldCount == 0
    ensures OldAt(hunks[1]) == OldAt(hunks[0]) + hunks[0].oldCount == hunks[0].oldStart
  {
    assert Placed(lines, hunks[1..], OldAt(hunks[0]) + hunks[0].oldCount);
    assert hunks[1..][0] == hunks[1];
  }

  lemma {:induction false} TiesInsert(lines: seq<string>, hunks: seq<Hunk>, from: int, i: nat)
    requires Placed(lines, hunks, from) && hunks != [] && 0 < i < TieCount(hunks)
    ensures hunks[i].oldCount == 0 && hunks[i].oldStart == OldAt(hunks[0]) + hunks[0].oldCount
    ensures hunks[0].oldCount <= 1 && |hunks[i].newLines| > 0
  {
    TiedWithFirst(lines, hunks, from);
    if i == 1 {
      assert Fits(lines, hunks[1..][0]);
    } else {
      TiesInsert(lines, hunks[1..], OldAt(hunks[0]) + hunks[0].oldCount, i - 1);
    }
  }

  lemma {:induction false} PlacedBehindTies(lines: seq<string>, hunks: seq<Hunk>, from: int)
    requires Placed(lines, hunks, from) && hunks != []
    ensures Placed(lines, hunks[TieCount(hunks)..], OldAt(hunks[0]) + hunks[0].oldCount)
  {
    if TieCount(hunks) == 1 {
    } else {
      TiedWithFirst(lines, hunks, from);
      PlacedBehindTies(lines, hunks[1..], OldAt(hunks[0]) + hunks[0].oldCount);
      assert hunks[1..][TieCount(hunks) - 1..] == hunks[TieCount(hunks)..];
    }
  }

  lemma {:induction false} StartsDoNotFall(lines: seq<string>, hunks: seq<Hunk>, from: int, i: nat)
    requires Placed(lines, hunks, from) && i < |hunks|
    ensures hunks[i].oldStart >= hunks[0].oldStart && OldAt(hunks[i]) >= from
  {
    if i == 0 {
    } else {
      StartsDoNotFall(lines, hunks[1..], OldAt(hunks[0]) + hunks[0].oldCount, i - 1);
      assert hunks[1..][0] == hunks[1];
      assert Fits(lines, hunks[1]);
    }
  }

  lemma {:induction false} StartsGrowBehindTies(lines: seq<string>, hunks: seq<Hunk>, from: int, i: nat)
    requires Placed(lines, hunks, from) && hunks != [] && TieCount(hunks) <= i < |hunks|
    ensures hunks[i].oldStart > hunks[0].oldStart
  {
    var rest, end := hunks[1..], OldAt(hunks[0]) + hunks[0].oldCount;
    if TieCount(hunks) == 1 {
      StartsDoNotFall(lines, hunks, from, 1);
      StartsDoNotFall(lines, rest, end, i - 1);
    } else {
      StartsGrowBehindTies(lines, rest, end, i - 1);
    }
  }

  /** The sort puts the first group last and keeps it in patch order. */
  lemma SortWithTies(lines: seq<string>, hunks: seq<Hunk>, from: int)
    requires Placed(lines, hunks, from) && hunks != []
    ensures var m := TieCount(hunks);
      ByOldStartDescending(hunks) == ByOldStartDescending(hunks[m..]) + hunks[..m]
  {
    var m := TieCount(hunks);
    TiedMembers(hunks);
    LaterMembers(lines, hunks, from);
    GroupSortsLast(hunks[..m], hunks[m..], hunks[0].oldStart);
    assert hunks[..m] + hunks[m..] == hunks;
  }

  lemma GroupSortsLast(ties: seq<Hunk>, rest: seq<Hunk>, start: nat)
    requires forall h :: h in ties ==> h.oldStart == start
    requires forall h :: h in rest ==> h.oldStart > start
    ensures ByOldStartDescending(ties + rest) == ByOldStartDescending(rest) + ties
  {
    SortOfTies(ties, rest, OldStartKey);
  }

  lemma TiedMembers(hunks: seq<Hunk>)
    requires hunks != []
    ensures forall h :: h in hunks[..TieCount(hunks)] ==> h.oldStart == hunks[0].oldStart
  {
    forall h | h in hunks[..TieCount(hunks)] ensures h.oldStart == hunks[0].oldStart {
      var i :| 0 <= i < TieCount(hunks) && hunks[i] == h;
      TiesShareStart(hunks, i);
    }
  }

  lemma LaterMembers(lines: seq<string>, hunks: seq<Hunk>, from: int)
    requires Placed(lines, hunks, from) && hunks != []
    ensures forall h :: h in hunks[TieCount(hunks)..] ==> h.oldStart > hunks[0].oldStart
  {
    forall h | h in hunks[TieCount(hunks)..] ensures h.oldStart > hunks[0].oldStart {
      var i :| TieCount(hunks) <= i < |hunks| && hunks[i] == h;
      StartsGrowBehindTies(lines, hunks, from, i);
    }
  }

  // ----- what the code makes of them -----

  function Sides(hunks: seq<Hunk>): seq<seq<string>> {
    if hunks == [] then [] else [hunks[0].newLines] + Sides(hunks[1..])
  }

  /** One piece after the other is inserted at the same place. */
  function InsertAll(text: seq<string>, at: nat, pieces: seq<seq<string>>): seq<string>
    decreases |pieces|
  {
    if pieces == [] then text else InsertAll(Take(text, at) + pieces[0] + Drop(text, at), at, pieces[1..])
  }

  /** The lines from `from` on as the code leaves them: ties go in one by one behind the first hunk's place. */
  ghost function Turned(lines: seq<string>, hunks: seq<Hunk>, from: int): seq<string>
    requires Placed(lines, hunks, from)
    decreases |hunks|
  {
    if hunks == [] then lines[from..]
    else
      var h, m := hunks[0], TieCount(hunks);
      PlacedBehindTies(lines, hunks, from);
      lines[from..OldAt(h)]
      + InsertAll(h.newLines + Turned(lines, hunks[m..], OldAt(h) + h.oldCount), h.oldCount, Sides(hunks[1..m]))
  }

  lemma {:induction false} SplicedAppend(lines: seq<string>, a: seq<Hunk>, b: seq<Hunk>)
    ensures Spliced(lines, a + b) == Spliced(Spliced(lines, a), b)
  {
    if b == [] {
      assert a + b == a;
    } else {
      SplicedAppend(lines, a, b[..|b| - 1]);
      assert (a + b)[..|a + b| - 1] == a + b[..|b| - 1];
    }
  }

  lemma SplicedOfCons(lines: seq<string>, h: Hunk, rest: seq<Hunk>)
    ensures Spliced(lines, [h] + rest) == Spliced(ApplyOneHunkToOld(lines, h), rest)
  {
    SplicedAppend(lines, [h], rest);
    assert [h][..0] == [];
  }

  predicate AllInsertAt(inserts: seq<Hunk>, at: int) {
    forall h :: h in inserts ==> h.oldCount == 0 && h.oldStart == at
  }

  lemma InsertBehindPrefix(front: seq<string>, text: seq<string>, h: Hunk, at: nat)
    requires h.oldCount == 0 && h.oldStart == |front| + at
    ensures ApplyOneHunkToOld(front + text, h) == front + (Take(text, at) + h.newLines + Drop(text, at))
  {
    assert Take(front + text, |front| + at) == front + Take(text, at);
    assert Drop(front + text, |front| + at) == Drop(text, at);
    RegroupFour(front, Take(text, at), h.newLines, Drop(text, at));
  }

  lemma {:induction false} InsertionsBehindPrefix(front: seq<string>, text: seq<string>, inserts: seq<Hunk>, at: nat)
    requires AllInsertAt(inserts, |front| + at)
    ensures Spliced(front + text, inserts) == front + InsertAll(text, at, Sides(inserts))
    decreases |inserts|
  {
    if inserts == [] {
    } else {
      var h, rest := inserts[0], inserts[1..];
      HeadAndTail(inserts);
      SplicedOfCons(front + text, h, rest);
      InsertBehindPrefix(front, text, h, at);
      InsertionsBehindPrefix(front, Take(text, at) + h.newLines + Drop(text, at), rest, at);
    }
  }

  lemma GroupSpliced(lines: seq<string>, hunks: seq<Hunk>, from: int, tail: seq<string>)
    requires Placed(lines, hunks, from) && hunks != []
    ensures var h, m := hunks[0], TieCount(hunks);
      Spliced(lines[..OldAt(h) + h.oldCount] + tail, hunks[..m])
      == lines[..OldAt(h)] + InsertAll(h.newLines + tail, h.oldCount, Sides(hunks[1..m]))
  {
    InsertsBehindFirst(lines, hunks, from, hunks[1..TieCount(hunks)]);
    FirstSomeSpliced(lines, hunks, TieCount(hunks), tail);
  }

  ghost predicate GroupGives(lines: seq<string>, group: seq<Hunk>, h: Hunk, inserts: seq<Hunk>, tail: seq<string>)
    requires Fits(lines, h)
  {
    Spliced(lines[..OldAt(h) + h.oldCount] + tail, group)
    == lines[..OldAt(h)] + InsertAll(h.newLines + tail, h.oldCount, Sides(inserts))
  }

  lemma FirstSomeSpliced(lines: seq<string>, hunks: seq<Hunk>, m: nat, tail: seq<string>)
    requires 1 <= m <= |hunks| && Fits(lines, hunks[0])
    requires AllInsertAt(hunks[1..m], OldAt(hunks[0]) + hunks[0].oldCount)
    ensures GroupGives(lines, hunks[..m], hunks[0], hunks[1..m], tail)
  {
    FirstOfGroup(hunks, m);
    FirstThenInserts(lines, hunks[..m], hunks[0], hunks[1..m], tail);
  }

  lemma FirstOfGroup(hunks: seq<Hunk>, m: nat)
    requires 1 <= m <= |hunks|
    ensures hunks[..m] == [hunks[0]] + hunks[1..m]
  {
  }

  lemma InsertsBehindFirst(lines: seq<string>, hunks: seq<Hunk>, from: int, inserts: seq<Hunk>)
    requires Placed(lines, hunks, from) && hunks != [] && inserts == hunks[1..TieCount(hunks)]
    ensures AllInsertAt(inserts, OldAt(hunks[0]) + hunks[0].oldCount)
  {
    forall h | h in inserts ensures h.oldCount == 0 && h.oldStart == OldAt(hunks[0]) + hunks[0].oldCount {
      var i :| 0 <= i < |inserts| && inserts[i] == h;
      TiesInsert(lines, hunks, from, i + 1);
    }
  }

  lemma FirstThenInserts(lines: seq<string>, group: seq<Hunk>, h: Hunk, inserts: seq<Hunk>, tail: seq<string>)
    requires group == [h] + inserts && Fits(lines, h)
    requires AllInsertAt(inserts, OldAt(h) + h.oldCount)
    ensures GroupGives(lines, group, h, inserts, tail)
  {
    var front := lines[..OldAt(h)];
    SplicedOfCons(lines[..OldAt(h) + h.oldCount] + tail, h, inserts);
    UpToHunk(lines, h);
    ApplyInside(front, h, tail);
    Regroup(front, h.newLines, tail);
    InsertionsBehindPrefix(front, h.newLines + tail, inserts, h.oldCount);
  }

  lemma UpToHunk(lines: seq<string>, h: Hunk)
    requires Fits(lines, h)
    ensures lines[..OldAt(h) + h.oldCount] == lines[..OldAt(h)] + h.oldLines
  {
  }

  /** For every placed list, ties or not, the apply loop leaves exactly these lines. */
  lemma {:induction false} SplicedIsTurned(lines: seq<string>, hunks: seq<Hunk>, from: int)
    requires Placed(lines, hunks, from)
    ensures Spliced(lines, ByOldStartDescending(hunks)) == lines[..from] + Turned(lines, hunks, from)
    decreases |hunks|
  {
    if hunks == [] {
      assert lines == lines[..from] + lines[from..];
    } else {
      var h, m := hunks[0], TieCount(hunks);
      var end := OldAt(h) + h.oldCount;
      PlacedBehindTies(lines, hunks, from);
      SplicedIsTurned(lines, hunks[m..], end);
      SplicedStep(lines, hunks, from, Turned(lines, hunks[m..], end));
    }
  }

  lemma SplicedStep(lines: seq<string>, hunks: seq<Hunk>, from: int, tail: seq<string>)
    requires Placed(lines, hunks, from) && hunks != []
    requires var h, m := hunks[0], TieCount(hunks);
      Spliced(lines, ByOldStartDescending(hunks[m..])) == lines[..OldAt(h) + h.oldCount] + tail
    ensures var h, m := hunks[0], TieCount(hunks);
      Spliced(lines, ByOldStartDescending(hunks))
      == lines[..from] + (lines[from..OldAt(h)] + InsertAll(h.newLines + tail, h.oldCount, Sides(hunks[1..m])))
  {
    var h, m := hunks[0], TieCount(hunks);
    SortWithTies(lines, hunks, from);
    SplicedAppend(lines, ByOldStartDescending(hunks[m..]), hunks[..m]);
    GroupSpliced(lines, hunks, from, tail);
    FrontMoves(lines, from, OldAt(h), InsertAll(h.newLines + tail, h.oldCount, Sides(hunks[1..m])));
  }

  lemma FrontMoves(lines: seq<string>, from: int, at: int, text: seq<string>)
    requires 0 <= from <= at <= |lines|
    ensures lines[..at] + text == lines[..from] + (lines[from..at] + text)
  {
    assert lines[..at] == lines[..from] + lines[from..at];
  }

  // ----- when that is right -----

  function Flat(pieces: seq<seq<string>>): seq<string> {
    if pieces == [] then [] else pieces[0] + Flat(pieces[1..])
  }

  function FlatBack(pieces: seq<seq<string>>): seq<string> {
    if pieces == [] then [] else FlatBack(pieces[1..]) + pieces[0]
  }

  /** The pieces commute: last to first they read like first to last. */
  predicate BothWays(pieces: seq<seq<string>>) {
    FlatBack(pieces) == Flat(pieces)
  }

  /**
   * What a group of ties puts in the wrong order: its insertions and what they are pushed in front of,
   * the rest of the first hunk's new side or the line behind the group.
   */
  function Displaced(first: seq<string>, at: nat, inserts: seq<seq<string>>, behind: seq<string>): seq<seq<string>>
    requires inserts != [] && inserts[0] != []
  {
    if at == 0 then [first] + inserts
    else if first != [] then [first[1..]] + inserts
    else if behind != [] then inserts + [behind[..1]]
    else [inserts[0][1..]] + inserts[1..]
  }

  ghost predicate GroupAgrees(lines: seq<string>, hunks: seq<Hunk>, from: int, behind: seq<string>)
    requires Placed(lines, hunks, from) && hunks != [] && TieCount(hunks) > 1
  {
    TiesHaveSides(lines, hunks, from);
    BothWays(Displaced(hunks[0].newLines, hunks[0].oldCount, Sides(hunks[1..TieCount(hunks)]), behind))
  }

  /** In every group of ties the displaced pieces commute. */
  ghost predicate TiesAgree(lines: seq<string>, hunks: seq<Hunk>, from: int)
    requires Placed(lines, hunks, from)
    decreases |hunks|
  {
    hunks == [] ||
    var h, m := hunks[0], TieCount(hunks);
    var end := OldAt(h) + h.oldCount;
    PlacedBehindTies(lines, hunks, from);
    && TiesAgree(lines, hunks[m..], end)
    && (m > 1 ==> GroupAgrees(lines, hunks, from, Patched(lines, hunks[m..], end)))
  }

  lemma {:induction false} SidesAt(hunks: seq<Hunk>, i: nat)
    requires i < |hunks|
    ensures |Sides(hunks)| == |hunks| && Sides(hunks)[i] == hunks[i].newLines
  {
    if |hunks| == 1 {
      assert Sides(hunks[1..]) == [];
    } else {
      SidesAt(hunks[1..], if i == 0 then 0 else i - 1);
    }
  }

  lemma TiesHaveSides(lines: seq<string>, hunks: seq<Hunk>, from: int)
    requires Placed(lines, hunks, from) && hunks != [] && TieCount(hunks) > 1
    ensures var sides := Sides(hunks[1..TieCount(hunks)]);
      sides != [] && sides[0] != [] && hunks[0].oldCount <= 1
  {
    TiesInsert(lines, hunks, from, 1);
    SidesAt(hunks[1..TieCount(hunks)], 0);
  }

  lemma {:induction false} FlatLengths(pieces: seq<seq<string>>)
    ensures |FlatBack(pieces)| == |Flat(pieces)|
  {
    if pieces == [] {
    } else {
      FlatLengths(pieces[1..]);
    }
  }

  lemma {:induction false} FlatOfSnoc(pieces: seq<seq<string>>, x: seq<string>)
    ensures Flat(pieces + [x]) == Flat(pieces) + x && FlatBack(pieces + [x]) == x + FlatBack(pieces)
  {
    if pieces == [] {
      FlatOfCons(x, []);
      assert pieces + [x] == [x] == [x] + [];
      assert x + [] == x && [] + x == x;
    } else {
      FlatOfSnoc(pieces[1..], x);
      FlatOfCons(pieces[0], pieces[1..] + [x]);
      assert pieces + [x] == [pieces[0]] + (pieces[1..] + [x]);
      Regroup(pieces[0], Flat(pieces[1..]), x);
      Regroup(x, FlatBack(pieces[1..]), pieces[0]);
    }
  }

  lemma FlatOfCons(x: seq<string>, pieces: seq<seq<string>>)
    ensures Flat([x] + pieces) == x + Flat(pieces) && FlatBack([x] + pieces) == FlatBack(pieces) + x
  {
    assert ([x] + pieces)[1..] == pieces;
  }

  lemma {:induction false} FlatSameLines(pieces: seq<seq<string>>)
    ensures multiset(FlatBack(pieces)) == multiset(Flat(pieces))
  {
    if pieces == [] {
    } else {
      FlatSameLines(pieces[1..]);
    }
  }

  /** Inserted one by one, the pieces end up last to first. */
  lemma {:induction false} InsertAllBack(text: seq<string>, at: nat, pieces: seq<seq<string>>)
    requires at <= |text|
    ensures InsertAll(text, at, pieces) == text[..at] + FlatBack(pieces) + text[at..]
    decreases |pieces|
  {
    if pieces == [] {
      assert text == text[..at] + [] + text[at..];
    } else {
      var p := pieces[0];
      var next := text[..at] + p + text[at..];
      InsertAllBack(next, at, pieces[1..]);
      assert Take(text, at) == text[..at] && Drop(text, at) == text[at..];
      assert next[..at] == text[..at] && next[at..] == p + text[at..];
      RegroupAround(text[..at], FlatBack(pieces[1..]), p, text[at..]);
    }
  }

  lemma RegroupAround(a: seq<string>, b: seq<string>, c: seq<string>, d: seq<string>)
    ensures a + b + (c + d) == a + (b + c) + d
  {
  }

  lemma InsertAllIntoNothing(pieces: seq<seq<string>>)
    requires pieces != [] && pieces[0] != []
    ensures InsertAll([], 1, pieces) == pieces[0][..1] + FlatBack(pieces[1..]) + pieces[0][1..]
  {
    assert [] + pieces[0] + [] == pieces[0];
    InsertAllBack(pieces[0], 1, pieces[1..]);
  }

  // The four shapes of a group, with the text behind it as the code leaves it and as it should be.

  lemma PartsAgree(front: seq<string>, middle: seq<string>, other: seq<string>, left: seq<string>, right: seq<string>)
    requires |middle| == |other|
    ensures front + middle + left == front + other + right <==> middle == other && left == right
  {
    EqualParts(front + middle, left, front + other, right);
    EqualParts(front, middle, front, other);
  }

  lemma InsertionGroup(first: seq<string>, inserts: seq<seq<string>>, left: seq<string>, right: seq<string>)
    ensures InsertAll(first + left, 0, inserts) == first + Flat(inserts) + right
       <==> left == right && BothWays([first] + inserts)
  {
    InsertAllBack(first + left, 0, inserts);
    FlatOfCons(first, inserts);
    FlatLengths(inserts);
    Regroup(FlatBack(inserts), first, left);
    NothingInFront(FlatBack(inserts), first + left);
    EqualParts(FlatBack(inserts) + first, left, first + Flat(inserts), right);
  }

  lemma NothingInFront(added: seq<string>, text: seq<string>)
    ensures text[..0] + added + text[0..] == added + text
  {
  }

  lemma ReplacementGroup(first: seq<string>, inserts: seq<seq<string>>, left: seq<string>, right: seq<string>)
    requires first != []
    ensures InsertAll(first + left, 1, inserts) == first + Flat(inserts) + right
       <==> left == right && BothWays([first[1..]] + inserts)
  {
    InsertAllBack(first + left, 1, inserts);
    FlatOfCons(first[1..], inserts);
    FlatLengths(inserts);
    assert (first + left)[..1] == first[..1] && (first + left)[1..] == first[1..] + left;
    assert first == first[..1] + first[1..];
    RegroupAround(first[..1], FlatBack(inserts), first[1..], left);
    Regroup(first[..1], first[1..], Flat(inserts));
    PartsAgree(first[..1], FlatBack(inserts) + first[1..], first[1..] + Flat(inserts), left, right);
  }

  lemma DeletionAtEnd(inserts: seq<seq<string>>)
    requires inserts != [] && inserts[0] != []
    ensures InsertAll([], 1, inserts) == Flat(inserts) <==> BothWays([inserts[0][1..]] + inserts[1..])
  {
    var x, rest := inserts[0], inserts[1..];
    InsertAllIntoNothing(inserts);
    FlatOfCons(x[1..], rest);
    FlatLengths(rest);
    assert x == x[..1] + x[1..];
    Regroup(x[..1], FlatBack(rest), x[1..]);
    Regroup(x[..1], x[1..], Flat(rest));
    EqualParts(x[..1], FlatBack(rest) + x[1..], x[..1], x[1..] + Flat(rest));
  }

  lemma DeletionGroup(inserts: seq<seq<string>>, left: seq<string>, right: seq<string>)
    requires |left| == |right| > 0
    ensures InsertAll(left, 1, inserts) == Flat(inserts) + right <==> left == right && BothWays(inserts + [right[..1]])
  {
    InsertAllBack(left, 1, inserts);
    FlatOfSnoc(inserts, right[..1]);
    FlatLengths(inserts);
    assert right == right[..1] + right[1..] && left == left[..1] + left[1..];
    Regroup(Flat(inserts), right[..1], right[1..]);
    EqualParts(left[..1] + FlatBack(inserts), left[1..], Flat(inserts) + right[..1], right[1..]);
    if left[..1] + FlatBack(inserts) == Flat(inserts) + right[..1] {
      SameFirst(left[..1], right[..1], inserts);
    }
  }

  /** Both sides hold the same lines, so the odd one out is the same too. */
  lemma SameFirst(left: seq<string>, right: seq<string>, inserts: seq<seq<string>>)
    requires |left| == |right| == 1 && left + FlatBack(inserts) == Flat(inserts) + right
    ensures left == right
  {
    FlatSameLines(inserts);
    var lines := multiset(Flat(inserts));
    assert multiset(left + FlatBack(inserts)) == multiset(left) + lines;
    assert multiset(Flat(inserts) + right) == lines + multiset(right);
    CancelLines(multiset(left), multiset(right), lines);
    assert left[0] in multiset(left);
    assert left[0] in multiset(right);
  }

  lemma CancelLines(a: multiset<string>, b: multiset<string>, c: multiset<string>)
    requires a + c == c + b
    ensures a == b
  {
    assert a == (a + c) - c;
    assert b == (c + b) - c;
  }

  lemma GroupComesOutRight(
    first: seq<string>, at: nat, inserts: seq<seq<string>>, left: seq<string>, right: seq<string>)
    requires inserts != [] && inserts[0] != [] && at <= 1 && |left| == |right|
    ensures InsertAll(first + left, at, inserts) == first + Flat(inserts) + right
       <==> left == right && BothWays(Displaced(first, at, inserts, right))
  {
    if at == 0 {
      InsertionGroup(first, inserts, left, right);
    } else if first != [] {
      ReplacementGroup(first, inserts, left, right);
    } else {
      assert first + left == left && first + Flat(inserts) == Flat(inserts);
      if right != [] {
        DeletionGroup(inserts, left, right);
      } else {
        DeletionAtEnd(inserts);
        assert Flat(inserts) + right == Flat(inserts);
      }
    }
  }

  /** The first group of ties, then the rest. */
  ghost predicate ReadsByGroup(lines: seq<string>, hunks: seq<Hunk>, from: int)
    requires Placed(lines, hunks, from) && hunks != []
  {
    var h, m := hunks[0], TieCount(hunks);
    && Placed(lines, hunks[m..], OldAt(h) + h.oldCount)
    && Patched(lines, hunks, from)
       == lines[from..OldAt(h)]
          + (h.newLines + Flat(Sides(hunks[1..m])) + Patched(lines, hunks[m..], OldAt(h) + h.oldCount))
  }

  lemma {:induction false} AllReadByGroup(lines: seq<string>, hunks: seq<Hunk>, from: int)
    requires Placed(lines, hunks, from) && hunks != []
    ensures ReadsByGroup(lines, hunks, from)
  {
    PlacedBehindTies(lines, hunks, from);
    if TieCount(hunks) == 1 {
      PatchedAlone(lines, hunks, from);
    } else {
      TiedWithFirst(lines, hunks, from);
      AllReadByGroup(lines, hunks[1..], OldAt(hunks[0]) + hunks[0].oldCount);
      PatchedGroupStep(lines, hunks, from);
    }
  }

  /** The reading of a list that starts with a group of ties. */
  lemma PatchedGroup(lines: seq<string>, hunks: seq<Hunk>, from: int)
    requires Placed(lines, hunks, from) && hunks != []
    ensures var h, m := hunks[0], TieCount(hunks);
      && Placed(lines, hunks[m..], OldAt(h) + h.oldCount)
      && Patched(lines, hunks, from)
         == lines[from..OldAt(h)]
            + (h.newLines + Flat(Sides(hunks[1..m])) + Patched(lines, hunks[m..], OldAt(h) + h.oldCount))
  {
    AllReadByGroup(lines, hunks, from);
  }

  lemma PatchedAlone(lines: seq<string>, hunks: seq<Hunk>, from: int)
    requires Placed(lines, hunks, from) && hunks != [] && TieCount(hunks) == 1
    ensures ReadsByGroup(lines, hunks, from)
  {
    var h := hunks[0];
    PatchedUnfolds(lines, hunks, from);
    assert hunks[1..1] == [];
    GroupOfOne(lines[from..OldAt(h)], h.newLines, Patched(lines, hunks[1..], OldAt(h) + h.oldCount));
  }

  lemma GroupOfOne(gap: seq<string>, side: seq<string>, tail: seq<string>)
    ensures gap + side + tail == gap + (side + Flat([]) + tail)
  {
    assert side + [] == side;
    Regroup(gap, side, tail);
  }

  lemma PatchedGroupStep(lines: seq<string>, hunks: seq<Hunk>, from: int)
    requires Placed(lines, hunks, from) && hunks != [] && TieCount(hunks) > 1
    requires Placed(lines, hunks[TieCount(hunks)..], OldAt(hunks[0]) + hunks[0].oldCount)
    requires OldAt(hunks[1]) == OldAt(hunks[0]) + hunks[0].oldCount && hunks[1].oldCount == 0
    requires TieCount(hunks[1..]) == TieCount(hunks) - 1
    requires ReadsByGroup(lines, hunks[1..], OldAt(hunks[0]) + hunks[0].oldCount)
    ensures ReadsByGroup(lines, hunks, from)
  {
    PatchedUnfolds(lines, hunks, from);
    GroupWithSecond(hunks, TieCount(hunks));
    var h, m := hunks[0], TieCount(hunks);
    var end := OldAt(h) + h.oldCount;
    assert lines[end..end] == [];
    GroupText(lines[from..OldAt(h)], h.newLines, hunks[1].newLines, Flat(Sides(hunks[2..m])),
              Patched(lines, hunks[m..], end));
  }

  lemma GroupWithSecond(hunks: seq<Hunk>, m: nat)
    requires 2 <= m <= |hunks|
    ensures hunks[1..][m - 1..] == hunks[m..] && hunks[1..][1..m - 1] == hunks[2..m]
    ensures Flat(Sides(hunks[1..m])) == hunks[1].newLines + Flat(Sides(hunks[2..m]))
  {
    assert hunks[1..m] == [hunks[1]] + hunks[2..m];
    SidesOfCons(hunks[1], hunks[2..m]);
    FlatOfCons(hunks[1].newLines, Sides(hunks[2..m]));
  }

  lemma SidesOfCons(h: Hunk, rest: seq<Hunk>)
    ensures Sides([h] + rest) == [h.newLines] + Sides(rest)
  {
    assert ([h] + rest)[1..] == rest;
  }

  lemma GroupText(gap: seq<string>, a: seq<string>, b: seq<string>, more: seq<string>, tail: seq<string>)
    ensures gap + a + ([] + (b + more + tail)) == gap + (a + (b + more) + tail)
  {
  }

  lemma {:induction false} InsertAllLength(text: seq<string>, at: nat, pieces: seq<seq<string>>)
    ensures |InsertAll(text, at, pieces)| == |text| + |Flat(pieces)|
    decreases |pieces|
  {
    if pieces == [] {
    } else {
      assert |Take(text, at)| + |Drop(text, at)| == |text|;
      InsertAllLength(Take(text, at) + pieces[0] + Drop(text, at), at, pieces[1..]);
    }
  }

  lemma {:induction false} TurnedLength(lines: seq<string>, hunks: seq<Hunk>, from: int)
    requires Placed(lines, hunks, from)
    ensures |Turned(lines, hunks, from)| == |Patched(lines, hunks, from)|
    decreases |hunks|
  {
    if hunks == [] {
    } else {
      var h, m := hunks[0], TieCount(hunks);
      var end := OldAt(h) + h.oldCount;
      PlacedBehindTies(lines, hunks, from);
      TurnedLength(lines, hunks[m..], end);
      TurnedLengthStep(lines, hunks, from);
    }
  }

  lemma TurnedLengthStep(lines: seq<string>, hunks: seq<Hunk>, from: int)
    requires Placed(lines, hunks, from) && hunks != []
    requires var m, end := TieCount(hunks), OldAt(hunks[0]) + hunks[0].oldCount;
      Placed(lines, hunks[m..], end) && |Turned(lines, hunks[m..], end)| == |Patched(lines, hunks[m..], end)|
    ensures |Turned(lines, hunks, from)| == |Patched(lines, hunks, from)|
  {
    var h, m := hunks[0], TieCount(hunks);
    var end := OldAt(h) + h.oldCount;
    TurnedUnfolds(lines, hunks, from);
    PatchedGroup(lines, hunks, from);
    GroupLength(lines[from..OldAt(h)], h.newLines, h.oldCount, Sides(hunks[1..m]),
                Turned(lines, hunks[m..], end), Patched(lines, hunks[m..], end));
  }

  lemma GroupLength(gap: seq<string>, side: seq<string>, at: nat, inserts: seq<seq<string>>,
                    left: seq<string>, right: seq<string>)
    requires |left| == |right|
    ensures |gap + InsertAll(side + left, at, inserts)| == |gap + (side + Flat(inserts) + right)|
  {
    InsertAllLength(side + left, at, inserts);
  }

  ghost predicate RightExactly(lines: seq<string>, hunks: seq<Hunk>, from: int)
    requires Placed(lines, hunks, from)
  {
    Turned(lines, hunks, from) == Patched(lines, hunks, from) <==> TiesAgree(lines, hunks, from)
  }

  lemma RightWithoutHunks(lines: seq<string>, from: int)
    requires Placed(lines, [], from)
    ensures RightExactly(lines, [], from)
  {
  }

  lemma RightBehindGroup(lines: seq<string>, hunks: seq<Hunk>, from: int)
    requires Placed(lines, hunks, from) && hunks != []
    requires var m, end := TieCount(hunks), OldAt(hunks[0]) + hunks[0].oldCount;
      Placed(lines, hunks[m..], end) && RightExactly(lines, hunks[m..], end)
    ensures RightExactly(lines, hunks, from)
  {
    var m, end := TieCount(hunks), OldAt(hunks[0]) + hunks[0].oldCount;
    PatchedGroup(lines, hunks, from);
    TurnedLength(lines, hunks[m..], end);
    GroupIsPatched(lines, hunks, from, Turned(lines, hunks[m..], end), Patched(lines, hunks[m..], end));
    TurnedUnfolds(lines, hunks, from);
    TiesUnfold(lines, hunks, from);
  }

  lemma {:induction false} RightGroupByGroup(lines: seq<string>, hunks: seq<Hunk>, from: int)
    requires Placed(lines, hunks, from)
    ensures RightExactly(lines, hunks, from)
    decreases |hunks|
  {
    if hunks == [] {
      RightWithoutHunks(lines, from);
    } else {
      PlacedBehindTies(lines, hunks, from);
      RightGroupByGroup(lines, hunks[TieCount(hunks)..], OldAt(hunks[0]) + hunks[0].oldCount);
      RightBehindGroup(lines, hunks, from);
    }
  }

  /** Ties come out right exactly when the pieces they displace commute, group by group. */
  lemma TurnedIsPatched(lines: seq<string>, hunks: seq<Hunk>, from: int)
    requires Placed(lines, hunks, from)
    ensures Turned(lines, hunks, from) == Patched(lines, hunks, from) <==> TiesAgree(lines, hunks, from)
  {
    RightGroupByGroup(lines, hunks, from);
  }

  lemma GroupIsPatched(lines: seq<string>, hunks: seq<Hunk>, from: int, left: seq<string>, right: seq<string>)
    requires Placed(lines, hunks, from) && hunks != [] && |left| == |right|
    ensures var h, m := hunks[0], TieCount(hunks);
      lines[from..OldAt(h)] + InsertAll(h.newLines + left, h.oldCount, Sides(hunks[1..m]))
      == lines[from..OldAt(h)] + (h.newLines + Flat(Sides(hunks[1..m])) + right)
      <==> left == right && (m > 1 ==> GroupAgrees(lines, hunks, from, right))
  {
    var h, m := hunks[0], TieCount(hunks);
    var inserts := Sides(hunks[1..m]);
    EqualParts(lines[from..OldAt(h)], InsertAll(h.newLines + left, h.oldCount, inserts),
               lines[from..OldAt(h)], h.newLines + Flat(inserts) + right);
    if m == 1 {
      assert h.newLines + [] == h.newLines;
      EqualParts(h.newLines, left, h.newLines, right);
    } else {
      TiesHaveSides(lines, hunks, from);
      GroupComesOutRight(h.newLines, h.oldCount, inserts, left, right);
    }
  }

  // ----- the results -----

  /** The apply loop computes the reading of any chosen hunks exactly when their ties agree. */
  lemma ApplyingExactly(lines: seq<string>, hunks: seq<Hunk>, on: set<nat>)
    requires Placed(lines, hunks, 0)
    ensures Placed(lines, Selected(hunks, on), 0)
    ensures Spliced(lines, ByOldStartDescending(Selected(hunks, on))) == Edited(lines, hunks, 0, on)
       <==> TiesAgree(lines, Selected(hunks, on), 0)
  {
    SelectedReading(lines, hunks, 0, on);
    SplicedIsTurned(lines, Selected(hunks, on), 0);
    TurnedIsPatched(lines, Selected(hunks, on), 0);
    assert lines[..0] == [];
  }

  /**
   * Reverting any subset on the new lines gives the lines with only the other hunks applied exactly
   * when the chosen hunks' ties agree, seen from the new side.
   */
  lemma RevertingExactly(lines: seq<string>, hunks: seq<Hunk>, indexes: set<nat>)
    requires WellFormed(lines, hunks)
    ensures var patched := Edited(lines, hunks, 0, Indexes(hunks));
      && Placed(patched, Selected(FlipAll(hunks), indexes), 0)
      && (Unspliced(patched, ByNewStartDescending(Selected(hunks, indexes)))
          == Edited(lines, hunks, 0, Indexes(hunks) - indexes)
          <==> TiesAgree(patched, Selected(FlipAll(hunks), indexes), 0))
  {
    var patched := Edited(lines, hunks, 0, Indexes(hunks));
    PatchedReading(lines, hunks, indexes);
    RevertIsApply(patched, hunks, indexes);
    ApplyingExactly(patched, FlipAll(hunks), indexes);
  }

  lemma {:induction false} UntiedAgree(lines: seq<string>, hunks: seq<Hunk>, from: int)
    requires Placed(lines, hunks, from) && Ascending(hunks)
    ensures TiesAgree(lines, hunks, from)
    decreases |hunks|
  {
    if hunks == [] {
    } else {
      assert TieCount(hunks) == 1;
      TailAscends(hunks);
      UntiedAgree(lines, hunks[1..], OldAt(hunks[0]) + hunks[0].oldCount);
    }
  }

  lemma TailAscends(hunks: seq<Hunk>)
    requires Ascending(hunks) && hunks != []
    ensures Ascending(hunks[1..])
  {
    var rest := hunks[1..];
    forall i, j | 0 <= i < j < |rest| ensures rest[i].oldStart < rest[j].oldStart {
      assert rest[i] == hunks[i + 1] && rest[j] == hunks[j + 1];
    }
  }

  /** Two insertions at one place come out in the wrong order, which only shows when they do not commute. */
  lemma TwoInsertions(lines: seq<string>, a: Hunk, b: Hunk)
    requires Placed(lines, [a, b], 0) && a.oldStart == b.oldStart && a.oldCount == 0
    ensures Spliced(lines, ByOldStartDescending([a, b]))
         == lines[..a.oldStart] + (b.newLines + a.newLines) + lines[a.oldStart..]
    ensures Spliced(lines, ByOldStartDescending([a, b])) == Patched(lines, [a, b], 0)
       <==> b.newLines + a.newLines == a.newLines + b.newLines
  {
    PairTurned(lines, [a, b]);
    InsertAllBack(a.newLines + lines[a.oldStart..], 0, [b.newLines]);
    PairFlat(a.newLines, b.newLines);
    PairFlat(b.newLines, []);
    assert FlatBack([b.newLines]) == b.newLines;
    Regroup(b.newLines, a.newLines, lines[a.oldStart..]);
    Regroup(lines[..a.oldStart], b.newLines + a.newLines, lines[a.oldStart..]);
  }

  /** An insertion behind a one-line replacement lands behind the first line of the new side. */
  lemma ReplaceThenInsert(lines: seq<string>, a: Hunk, b: Hunk)
    requires Placed(lines, [a, b], 0) && a.oldStart == b.oldStart && a.oldCount == 1 && a.newLines != []
    ensures Spliced(lines, ByOldStartDescending([a, b]))
         == lines[..OldAt(a)] + (a.newLines[..1] + b.newLines + a.newLines[1..]) + lines[a.oldStart..]
    ensures Spliced(lines, ByOldStartDescending([a, b])) == Patched(lines, [a, b], 0)
       <==> b.newLines + a.newLines[1..] == a.newLines[1..] + b.newLines
  {
    PairTurned(lines, [a, b]);
    PairFlat(a.newLines[1..], b.newLines);
    InsertBehindFirstLine(a.newLines, b.newLines, lines[a.oldStart..]);
    Regroup(lines[..OldAt(a)], a.newLines[..1] + b.newLines + a.newLines[1..], lines[a.oldStart..]);
  }

  lemma InsertBehindFirstLine(first: seq<string>, added: seq<string>, tail: seq<string>)
    requires first != []
    ensures InsertAll(first + tail, 1, [added]) == first[..1] + added + first[1..] + tail
  {
    InsertAllBack(first + tail, 1, [added]);
    PairFlat(added, []);
    assert (first + tail)[..1] == first[..1] && (first + tail)[1..] == first[1..] + tail;
    Regroup(first[..1] + added, first[1..], tail);
  }

  lemma PairFlat(x: seq<string>, y: seq<string>)
    ensures Flat([x] + [y]) == x + y && FlatBack([x] + [y]) == y + x
    ensures FlatBack([x]) == x
  {
    FlatOfCons(y, []);
    FlatOfCons(x, [y]);
    FlatOfCons(x, []);
    assert [y] + [] == [y] && [x] + [] == [x] && y + [] == y && [] + y == y && [] + x == x;
  }

  lemma PairTurned(lines: seq<string>, hunks: seq<Hunk>)
    requires |hunks| == 2 && Placed(lines, hunks, 0) && hunks[0].oldStart == hunks[1].oldStart
    ensures hunks[0].oldStart <= |lines| && hunks[1].newLines != [] && hunks[0].oldCount <= 1
    ensures var a, b := hunks[0], hunks[1];
      Spliced(lines, ByOldStartDescending(hunks))
      == lines[..OldAt(a)] + InsertAll(a.newLines + lines[a.oldStart..], a.oldCount, [b.newLines])
    ensures var a, b := hunks[0], hunks[1];
      Spliced(lines, ByOldStartDescending(hunks)) == Patched(lines, hunks, 0)
      <==> BothWays(Displaced(a.newLines, a.oldCount, [b.newLines], lines[a.oldStart..]))
  {
    PairShape(lines, hunks);
    SplicedIsTurned(lines, hunks, 0);
    TurnedIsPatched(lines, hunks, 0);
    assert lines[..0] + Turned(lines, hunks, 0) == Turned(lines, hunks, 0);
    assert lines[0..OldAt(hunks[0])] == lines[..OldAt(hunks[0])];
    PairGroup(lines, hunks);
    PairAgrees(lines, hunks);
  }

  lemma PairShape(lines: seq<string>, hunks: seq<Hunk>)
    requires |hunks| == 2 && Placed(lines, hunks, 0) && hunks[0].oldStart == hunks[1].oldStart
    ensures var a := hunks[0];
      a.oldCount <= 1 && hunks[1].newLines != [] && OldAt(a) + a.oldCount == a.oldStart <= |lines|
    ensures TieCount(hunks) == 2 && hunks[2..] == [] && Sides(hunks[1..2]) == [hunks[1].newLines]
  {
    assert TieCount(hunks[1..]) == 1;
    TiedWithFirst(lines, hunks, 0);
    TiesInsert(lines, hunks, 0, 1);
    assert hunks[1..2] == [hunks[1]] && [hunks[1]][1..] == [];
  }

  lemma PairGroup(lines: seq<string>, hunks: seq<Hunk>)
    requires |hunks| == 2 && Placed(lines, hunks, 0) && hunks[0].oldStart == hunks[1].oldStart
    ensures hunks[0].oldStart <= |lines| && hunks[0].oldCount <= 1
    ensures var a := hunks[0];
      Turned(lines, hunks, 0)
      == lines[0..OldAt(a)] + InsertAll(a.newLines + lines[a.oldStart..], a.oldCount, [hunks[1].newLines])
  {
    PairShape(lines, hunks);
    TurnedUnfolds(lines, hunks, 0);
    NothingBehind(lines, hunks[0].oldStart);
  }

  lemma PairAgrees(lines: seq<string>, hunks: seq<Hunk>)
    requires |hunks| == 2 && Placed(lines, hunks, 0) && hunks[0].oldStart == hunks[1].oldStart
    ensures hunks[0].oldCount <= 1 && hunks[1].newLines != [] && hunks[0].oldStart <= |lines|
    ensures var a := hunks[0];
      TiesAgree(lines, hunks, 0)
      <==> BothWays(Displaced(a.newLines, a.oldCount, [hunks[1].newLines], lines[a.oldStart..]))
  {
    PairShape(lines, hunks);
    TiesUnfold(lines, hunks, 0);
    NothingBehind(lines, hunks[0].oldStart);
    PairAgreement(lines, hunks, hunks[0].oldStart);
  }

  lemma PairAgreement(lines: seq<string>, hunks: seq<Hunk>, end: int)
    requires Placed(lines, hunks, 0) && |hunks| == 2 == TieCount(hunks) && 0 <= end <= |lines|
    requires hunks[0].oldCount <= 1 && hunks[1].newLines != [] && Sides(hunks[1..2]) == [hunks[1].newLines]
    ensures GroupAgrees(lines, hunks, 0, lines[end..])
       <==> BothWays(Displaced(hunks[0].newLines, hunks[0].oldCount, [hunks[1].newLines], lines[end..]))
  {
  }

  lemma NothingBehind(lines: seq<string>, end: int)
    requires 0 <= end <= |lines|
    ensures Turned(lines, [], end) == Patched(lines, [], end) == lines[end..] && TiesAgree(lines, [], end)
  {
  }

  lemma TurnedUnfolds(lines: seq<string>, hunks: seq<Hunk>, from: int)
    requires Placed(lines, hunks, from) && hunks != []
    ensures var h, m := hunks[0], TieCount(hunks);
      && Placed(lines, hunks[m..], OldAt(h) + h.oldCount)
      && Turned(lines, hunks, from)
         == lines[from..OldAt(h)]
            + InsertAll(h.newLines + Turned(lines, hunks[m..], OldAt(h) + h.oldCount), h.oldCount, Sides(hunks[1..m]))
  {
    PlacedBehindTies(lines, hunks, from);
  }

  lemma TiesUnfold(lines: seq<string>, hunks: seq<Hunk>, from: int)
    requires Placed(lines, hunks, from) && hunks != []
    ensures var h, m := hunks[0], TieCount(hunks);
      && Placed(lines, hunks[m..], OldAt(h) + h.oldCount)
      && (TiesAgree(lines, hunks, from) <==>
            && TiesAgree(lines, hunks[m..], OldAt(h) + h.oldCount)
            && (m > 1 ==> GroupAgrees(lines, hunks, from, Patched(lines, hunks[m..], OldAt(h) + h.oldCount))))
  {
    PlacedBehindTies(lines, hunks, from);
  }
}
