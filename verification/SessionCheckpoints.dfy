/** The bounded checkpoint list of a folded session (packages/contracts/src/sessionSnapshot.ts). */
module SessionCheckpoints {
  import opened Wrappers
  import opened Sequences
  import opened StableSort
  import opened SessionSnapshot

  // ----- taking the newest commutes with everything the branches do -----

  lemma {:induction false} SortOfSorted(rows: seq<Checkpoint>)
    requires Sorted(rows, CheckpointNumber)
    ensures Sort(rows, CheckpointNumber) == rows
  {
    if rows == [] {
    } else {
      var n := |rows| - 1;
      var front := rows[..n];
      SortOfSorted(front);
      assert rows == front + [rows[n]];
      assert n > 0 ==> CheckpointNumber(front[n - 1]) <= CheckpointNumber(rows[n]);
    }
  }

  lemma TakeRightOfSnoc(rows: seq<Checkpoint>, x: Checkpoint, n: nat)
    ensures TakeRight(rows + [x], n + 1) == TakeRight(rows, n) + [x]
  {
  }

  lemma InsertInFront(front: seq<Checkpoint>, last: Checkpoint, kept: seq<Checkpoint>, x: Checkpoint, n: nat)
    requires n > 0 && CheckpointNumber(last) > CheckpointNumber(x)
    requires TakeRight(Insert(kept, x, CheckpointNumber), n - 1) == TakeRight(Insert(front, x, CheckpointNumber), n - 1)
    ensures TakeRight(Insert(kept + [last], x, CheckpointNumber), n)
         == TakeRight(Insert(front + [last], x, CheckpointNumber), n)
  {
    InsertOfSnoc(kept, last, x);
    InsertOfSnoc(front, last, x);
    TakeRightOfSnoc(Insert(kept, x, CheckpointNumber), last, n - 1);
    TakeRightOfSnoc(Insert(front, x, CheckpointNumber), last, n - 1);
  }

  /** Inserting into the newest `n` rows and cutting again is inserting into all rows and cutting once. */
  lemma {:induction false} InsertIntoNewest(rows: seq<Checkpoint>, x: Checkpoint, n: nat)
    ensures TakeRight(Insert(TakeRight(rows, n), x, CheckpointNumber), n)
         == TakeRight(Insert(rows, x, CheckpointNumber), n)
  {
    if n == 0 {
      InsertElements(rows, x, CheckpointNumber);
    } else if rows != [] {
      var front, last := rows[..|rows| - 1], rows[|rows| - 1];
      assert rows == front + [last];
      TakeRightOfSnoc(front, last, n - 1);
      if CheckpointNumber(last) <= CheckpointNumber(x) {
        InsertAtEnd(front, last, TakeRight(front, n - 1), x, n);
      } else {
        InsertIntoNewest(front, x, n - 1);
        InsertInFront(front, last, TakeRight(front, n - 1), x, n);
      }
    }
  }

  lemma TakeRightTwo(rows: seq<Checkpoint>, last: Checkpoint, x: Checkpoint, n: nat)
    requires n > 0
    ensures TakeRight(rows + [last] + [x], n) == TakeRight(TakeRight(rows, n - 1) + [last], n - 1) + [x]
  {
    TakeRightOfSnoc(rows + [last], x, n - 1);
    if n > 1 {
      TakeRightOfSnoc(rows, last, n - 2);
      TakeRightOfSnoc(TakeRight(rows, n - 1), last, n - 2);
    }
  }

  lemma InsertAtEnd(front: seq<Checkpoint>, last: Checkpoint, kept: seq<Checkpoint>, x: Checkpoint, n: nat)
    requires n > 0 && kept == TakeRight(front, n - 1) && CheckpointNumber(last) <= CheckpointNumber(x)
    ensures TakeRight(Insert(kept + [last], x, CheckpointNumber), n)
         == TakeRight(Insert(front + [last], x, CheckpointNumber), n)
  {
    assert Insert(kept + [last], x, CheckpointNumber) == kept + [last] + [x];
    assert Insert(front + [last], x, CheckpointNumber) == front + [last] + [x];
    TakeRightTwo(front, last, x, n);
    TakeRightTwo(kept, last, x, n);
  }

  lemma RetainedIsSorted(rows: seq<Checkpoint>)
    ensures Sorted(RetainNewest(rows), CheckpointNumber)
    ensures Sort(RetainNewest(rows), CheckpointNumber) == RetainNewest(rows)
    ensures |RetainNewest(rows)| <= MAX_RPC_SESSION_CHECKPOINTS
  {
    SortSorts(rows, CheckpointNumber);
    SortOfSorted(RetainNewest(rows));
  }

  lemma SortOfSnoc(rows: seq<Checkpoint>, x: Checkpoint)
    ensures Sort(rows + [x], CheckpointNumber) == Insert(Sort(rows, CheckpointNumber), x, CheckpointNumber)
  {
    assert (rows + [x])[..|rows|] == rows;
  }

  lemma RetainThenAdd(rows: seq<Checkpoint>, x: Checkpoint)
    ensures RetainNewest(RetainNewest(rows) + [x]) == RetainNewest(rows + [x])
  {
    RetainedIsSorted(rows);
    SortOfSnoc(RetainNewest(rows), x);
    SortOfSnoc(rows, x);
    InsertIntoNewest(Sort(rows, CheckpointNumber), x, MAX_RPC_SESSION_CHECKPOINTS);
  }

  lemma RowKeepsKey(row: Checkpoint, e: Event)
    ensures CheckpointNumber(RowAfter(row, e)) == CheckpointNumber(row)
    ensures RowAfter(row, e).checkpointId == row.checkpointId
  {
  }

  lemma {:induction false} RowsAfterAt(rows: seq<Checkpoint>, e: Event)
    ensures |RowsAfter(rows, e)| == |rows|
    ensures forall i :: 0 <= i < |rows| ==> RowsAfter(rows, e)[i] == RowAfter(rows[i], e)
  {
    if rows == [] {
    } else {
      RowsAfterAt(rows[1..], e);
    }
  }

  lemma RowsAfterOfSnoc(rows: seq<Checkpoint>, x: Checkpoint, e: Event)
    ensures RowsAfter(rows + [x], e) == RowsAfter(rows, e) + [RowAfter(x, e)]
  {
    RowsAfterAt(rows, e);
    RowsAfterAt(rows + [x], e);
  }

  lemma RowsAfterOfNewest(rows: seq<Checkpoint>, e: Event, n: nat)
    ensures RowsAfter(TakeRight(rows, n), e) == TakeRight(RowsAfter(rows, e), n)
  {
    RowsAfterAt(rows, e);
    RowsAfterAt(TakeRight(rows, n), e);
  }

  lemma {:induction false} InsertOfMapped(rows: seq<Checkpoint>, x: Checkpoint, e: Event)
    ensures Insert(RowsAfter(rows, e), RowAfter(x, e), CheckpointNumber)
         == RowsAfter(Insert(rows, x, CheckpointNumber), e)
  {
    RowKeepsKey(x, e);
    if rows == [] {
      assert [x][1..] == [];
    } else {
      var front, last := rows[..|rows| - 1], rows[|rows| - 1];
      assert rows == front + [last];
      RowKeepsKey(last, e);
      RowsAfterOfSnoc(front, last, e);
      if CheckpointNumber(last) <= CheckpointNumber(x) {
        RowsAfterOfSnoc(rows, x, e);
      } else {
        InsertOfMapped(front, x, e);
        RowsAfterOfSnoc(Insert(front, x, CheckpointNumber), last, e);
        assert (RowsAfter(front, e) + [RowAfter(last, e)])[..|RowsAfter(front, e)|] == RowsAfter(front, e);
      }
    }
  }

  lemma {:induction false} SortOfMapped(rows: seq<Checkpoint>, e: Event)
    ensures Sort(RowsAfter(rows, e), CheckpointNumber) == RowsAfter(Sort(rows, CheckpointNumber), e)
  {
    if rows == [] {
    } else {
      var front, last := rows[..|rows| - 1], rows[|rows| - 1];
      assert rows == front + [last];
      SortOfMapped(front, e);
      RowsAfterOfSnoc(front, last, e);
      SortOfSnoc(RowsAfter(front, e), RowAfter(last, e));
      InsertOfMapped(Sort(front, CheckpointNumber), last, e);
    }
  }

  lemma RetainThenMap(rows: seq<Checkpoint>, e: Event)
    ensures RetainNewest(RowsAfter(RetainNewest(rows), e)) == RetainNewest(RowsAfter(rows, e))
  {
    var sorted := Sort(rows, CheckpointNumber);
    RetainedIsSorted(rows);
    SortOfMapped(RetainNewest(rows), e);
    SortOfMapped(rows, e);
    RowsAfterOfNewest(sorted, e, MAX_RPC_SESSION_CHECKPOINTS);
  }

  // ----- what holds of every run -----

  ghost predicate DistinctIds(rows: seq<Checkpoint>) {
    forall i, j :: 0 <= i < j < |rows| ==> rows[i].checkpointId != rows[j].checkpointId
  }

  ghost predicate HasCheckpoint(rows: seq<Checkpoint>, id: string) {
    exists i :: 0 <= i < |rows| && rows[i].checkpointId == id
  }

  ghost predicate CheckpointsOk(rows: seq<Checkpoint>) {
    && Sorted(rows, CheckpointNumber)
    && DistinctIds(rows)
    && |rows| <= MAX_RPC_SESSION_CHECKPOINTS
  }

  lemma {:induction false} WithoutIsDistinct(rows: seq<Checkpoint>, id: string)
    requires DistinctIds(rows)
    ensures DistinctIds(WithoutCheckpoint(rows, id)) && !HasCheckpoint(WithoutCheckpoint(rows, id), id)
    ensures forall i :: 0 <= i < |WithoutCheckpoint(rows, id)| ==>
      HasCheckpoint(rows, WithoutCheckpoint(rows, id)[i].checkpointId)
  {
    if rows == [] {
    } else {
      var rest := rows[1..];
      var kept := WithoutCheckpoint(rest, id);
      forall i, j | 0 <= i < j < |rest| ensures rest[i].checkpointId != rest[j].checkpointId {
        assert rest[i] == rows[i + 1] && rest[j] == rows[j + 1];
      }
      WithoutIsDistinct(rest, id);
      forall i | 0 <= i < |kept|
        ensures kept[i].checkpointId != rows[0].checkpointId && HasCheckpoint(rows, kept[i].checkpointId)
      {
        assert HasCheckpoint(rest, kept[i].checkpointId);
        var j :| 0 <= j < |rest| && rest[j].checkpointId == kept[i].checkpointId;
        assert rows[j + 1].checkpointId == kept[i].checkpointId;
      }
      assert rows[0].checkpointId == rows[0].checkpointId && HasCheckpoint(rows, rows[0].checkpointId);
    }
  }

  lemma DistinctOfSnoc(front: seq<Checkpoint>, last: Checkpoint)
    ensures DistinctIds(front + [last]) <==> DistinctIds(front) && !HasCheckpoint(front, last.checkpointId)
  {
    var rows := front + [last];
    assert rows[|front|] == last;
    assert forall i :: 0 <= i < |front| ==> rows[i] == front[i];
    if DistinctIds(rows) {
      forall i, j | 0 <= i < j < |front| ensures front[i].checkpointId != front[j].checkpointId {
        assert rows[i] == front[i] && rows[j] == front[j];
      }
    }
  }

  lemma HasOfSnoc(front: seq<Checkpoint>, last: Checkpoint, id: string)
    ensures HasCheckpoint(front + [last], id) <==> HasCheckpoint(front, id) || last.checkpointId == id
  {
    var rows := front + [last];
    assert rows[|front|] == last;
    assert forall i :: 0 <= i < |front| ==> rows[i] == front[i];
    if HasCheckpoint(front, id) {
      var i :| 0 <= i < |front| && front[i].checkpointId == id;
      assert rows[i].checkpointId == id;
    }
  }

  lemma InsertOfSnoc(front: seq<Checkpoint>, last: Checkpoint, x: Checkpoint)
    ensures Insert(front + [last], x, CheckpointNumber)
         == if CheckpointNumber(last) <= CheckpointNumber(x) then front + [last] + [x]
            else Insert(front, x, CheckpointNumber) + [last]
  {
    assert (front + [last])[..|front|] == front;
  }

  lemma {:induction false} InsertHas(rows: seq<Checkpoint>, x: Checkpoint, id: string)
    ensures HasCheckpoint(Insert(rows, x, CheckpointNumber), id) <==> HasCheckpoint(rows, id) || x.checkpointId == id
  {
    if rows == [] {
      assert Insert(rows, x, CheckpointNumber)[0] == x;
    } else {
      var front, last := rows[..|rows| - 1], rows[|rows| - 1];
      assert rows == front + [last];
      InsertOfSnoc(front, last, x);
      InsertHas(front, x, id);
      HasOfSnoc(front, last, id);
      HasOfSnoc(rows, x, id);
      HasOfSnoc(Insert(front, x, CheckpointNumber), last, id);
    }
  }

  lemma {:induction false} InsertIsDistinct(rows: seq<Checkpoint>, x: Checkpoint)
    requires DistinctIds(rows) && !HasCheckpoint(rows, x.checkpointId)
    ensures DistinctIds(Insert(rows, x, CheckpointNumber))
  {
    if rows == [] {
    } else {
      var front, last := rows[..|rows| - 1], rows[|rows| - 1];
      assert rows == front + [last];
      InsertOfSnoc(front, last, x);
      DistinctOfSnoc(front, last);
      DistinctOfSnoc(rows, x);
      HasOfSnoc(front, last, x.checkpointId);
      InsertIsDistinct(front, x);
      InsertHas(front, x, last.checkpointId);
      DistinctOfSnoc(Insert(front, x, CheckpointNumber), last);
    }
  }

  lemma {:induction false} SortHas(rows: seq<Checkpoint>, id: string)
    ensures HasCheckpoint(Sort(rows, CheckpointNumber), id) <==> HasCheckpoint(rows, id)
  {
    if rows == [] {
    } else {
      var front, x := rows[..|rows| - 1], rows[|rows| - 1];
      assert rows == front + [x];
      SortHas(front, id);
      SortOfSnoc(front, x);
      InsertHas(Sort(front, CheckpointNumber), x, id);
      HasOfSnoc(front, x, id);
    }
  }

  lemma {:induction false} SortIsDistinct(rows: seq<Checkpoint>)
    requires DistinctIds(rows)
    ensures DistinctIds(Sort(rows, CheckpointNumber))
  {
    if rows == [] {
    } else {
      var front, x := rows[..|rows| - 1], rows[|rows| - 1];
      assert rows == front + [x];
      DistinctOfSnoc(front, x);
      SortIsDistinct(front);
      SortOfSnoc(front, x);
      SortHas(front, x.checkpointId);
      InsertIsDistinct(Sort(front, CheckpointNumber), x);
    }
  }

  lemma RetainedIsOk(rows: seq<Checkpoint>)
    requires DistinctIds(rows)
    ensures CheckpointsOk(RetainNewest(rows))
  {
    RetainedIsSorted(rows);
    SortIsDistinct(rows);
  }

  lemma MappedIsDistinct(rows: seq<Checkpoint>, e: Event)
    requires DistinctIds(rows)
    ensures DistinctIds(RowsAfter(rows, e))
  {
    RowsAfterAt(rows, e);
  }

  lemma CheckpointsStayOk(rows: seq<Checkpoint>, e: Event)
    requires CheckpointsOk(rows)
    ensures CheckpointsOk(CheckpointsAfter(rows, e))
  {
    match e.payload
    case CheckpointCreated(_, id, _, _, _, _, _) =>
      WithoutIsDistinct(rows, id);
      DistinctOfSnoc(WithoutCheckpoint(rows, id), NewCheckpoint(e));
      RetainedIsOk(WithoutCheckpoint(rows, id) + [NewCheckpoint(e)]);
    case CheckpointReadinessChanged(_, _, _) =>
      MappedIsDistinct(rows, e);
      RetainedIsOk(RowsAfter(rows, e));
    case CheckpointReverted(_, _) =>
      MappedIsDistinct(rows, e);
      RetainedIsOk(RowsAfter(rows, e));
    case _ =>
  }

  /** In every run, even one that recreates ids, the list is sorted by number, its ids are unique, and it is bounded. */
  lemma {:induction false} CheckpointsAreSortedAndUnique(from: nat, events: seq<Event>)
    ensures CheckpointsOk(Fold(Empty(from), events).checkpoints)
  {
    if events == [] {
    } else {
      var front, e := events[..|events| - 1], events[|events| - 1];
      CheckpointsAreSortedAndUnique(from, front);
      ApplyStep(Fold(Empty(from), front), e);
      CheckpointsStayOk(Fold(Empty(from), front).checkpoints, e);
    }
  }

  // ----- taking a row out -----

  lemma {:induction false} WithoutOfAppend(a: seq<Checkpoint>, b: seq<Checkpoint>, id: string)
    ensures WithoutCheckpoint(a + b, id) == WithoutCheckpoint(a, id) + WithoutCheckpoint(b, id)
  {
    if a == [] {
      assert a + b == b;
    } else {
      assert (a + b)[1..] == a[1..] + b;
      WithoutOfAppend(a[1..], b, id);
    }
  }

  lemma WithoutOfOne(x: Checkpoint, id: string)
    ensures WithoutCheckpoint([x], id) == if x.checkpointId != id then [x] else []
  {
    assert [x][1..] == [];
  }

  lemma WithoutOfSnoc(rows: seq<Checkpoint>, x: Checkpoint, id: string)
    ensures WithoutCheckpoint(rows + [x], id) == WithoutCheckpoint(rows, id) + if x.checkpointId != id then [x] else []
  {
    WithoutOfAppend(rows, [x], id);
    WithoutOfOne(x, id);
  }

  lemma {:induction false} NothingToRemove(rows: seq<Checkpoint>, id: string)
    requires !HasCheckpoint(rows, id)
    ensures WithoutCheckpoint(rows, id) == rows
  {
    if rows == [] {
    } else {
      assert rows[0].checkpointId != id;
      forall i | 0 <= i < |rows[1..]| ensures rows[1..][i].checkpointId != id {
        assert rows[1..][i] == rows[i + 1];
      }
      NothingToRemove(rows[1..], id);
    }
  }

  lemma {:induction false} WithoutMember(rows: seq<Checkpoint>, id: string, y: Checkpoint)
    ensures y in WithoutCheckpoint(rows, id) ==> y in rows
  {
    if rows == [] {
    } else {
      WithoutMember(rows[1..], id, y);
    }
  }

  /** With distinct ids one row goes, and none when the id is absent. */
  lemma {:induction false} OneRowGoes(rows: seq<Checkpoint>, id: string)
    requires DistinctIds(rows)
    ensures |WithoutCheckpoint(rows, id)| == if HasCheckpoint(rows, id) then |rows| - 1 else |rows|
  {
    if !HasCheckpoint(rows, id) {
      NothingToRemove(rows, id);
    } else {
      var rest := rows[1..];
      assert forall i :: 0 <= i < |rest| ==> rest[i] == rows[i + 1];
      OneRowGoes(rest, id);
      var k :| 0 <= k < |rows| && rows[k].checkpointId == id;
      if k > 0 {
        assert rest[k - 1].checkpointId == id;
      }
    }
  }

  lemma {:induction false} InsertBehindAll(rows: seq<Checkpoint>, x: Checkpoint)
    requires forall y :: y in rows ==> CheckpointNumber(y) <= CheckpointNumber(x)
    ensures Insert(rows, x, CheckpointNumber) == rows + [x]
  {
  }

  lemma SortedSplit(front: seq<Checkpoint>, last: Checkpoint)
    requires Sorted(front + [last], CheckpointNumber)
    ensures Sorted(front, CheckpointNumber)
    ensures forall y :: y in front ==> CheckpointNumber(y) <= CheckpointNumber(last)
  {
    var rows := front + [last];
    forall i, j | 0 <= i < j < |front| ensures CheckpointNumber(front[i]) <= CheckpointNumber(front[j]) {
      assert rows[i] == front[i] && rows[j] == front[j];
    }
    forall y | y in front ensures CheckpointNumber(y) <= CheckpointNumber(last) {
      var i :| 0 <= i < |front| && front[i] == y;
      assert rows[i] == y && rows[|front|] == last;
    }
  }

  lemma RemovedBehind(front: seq<Checkpoint>, last: Checkpoint, x: Checkpoint, id: string)
    requires CheckpointNumber(last) > CheckpointNumber(x)
    requires WithoutCheckpoint(Insert(front, x, CheckpointNumber), id)
          == if x.checkpointId == id then WithoutCheckpoint(front, id)
             else Insert(WithoutCheckpoint(front, id), x, CheckpointNumber)
    ensures WithoutCheckpoint(Insert(front + [last], x, CheckpointNumber), id)
         == if x.checkpointId == id then WithoutCheckpoint(front + [last], id)
            else Insert(WithoutCheckpoint(front + [last], id), x, CheckpointNumber)
  {
    var inserted, left := Insert(front, x, CheckpointNumber), WithoutCheckpoint(front, id);
    InsertOfSnoc(front, last, x);
    WithoutOfSnoc(inserted, last, id);
    WithoutOfSnoc(front, last, id);
    if last.checkpointId != id {
      InsertOfSnoc(left, last, x);
    } else {
      assert left + [] == left;
      assert WithoutCheckpoint(inserted, id) + [] == WithoutCheckpoint(inserted, id);
    }
  }

  /** Taking out a row and inserting another one commute on a sorted list. */
  lemma {:induction false} InsertThenRemove(rows: seq<Checkpoint>, x: Checkpoint, id: string)
    requires Sorted(rows, CheckpointNumber)
    ensures WithoutCheckpoint(Insert(rows, x, CheckpointNumber), id)
         == if x.checkpointId == id then WithoutCheckpoint(rows, id)
            else Insert(WithoutCheckpoint(rows, id), x, CheckpointNumber)
  {
    if rows == [] {
      WithoutOfOne(x, id);
    } else {
      var front, last := rows[..|rows| - 1], rows[|rows| - 1];
      assert rows == front + [last];
      SortedSplit(front, last);
      InsertThenRemove(front, x, id);
      WithoutOfSnoc(front, last, id);
      if CheckpointNumber(last) <= CheckpointNumber(x) {
        WithoutOfSnoc(rows, x, id);
        forall y | y in WithoutCheckpoint(rows, id) ensures CheckpointNumber(y) <= CheckpointNumber(x) {
          WithoutMember(rows, id, y);
        }
        InsertBehindAll(WithoutCheckpoint(rows, id), x);
      } else {
        RemovedBehind(front, last, x, id);
      }
    }
  }

  lemma SortOfRemovedStep(front: seq<Checkpoint>, x: Checkpoint, id: string)
    requires Sort(WithoutCheckpoint(front, id), CheckpointNumber)
          == WithoutCheckpoint(Sort(front, CheckpointNumber), id)
    ensures Sort(WithoutCheckpoint(front + [x], id), CheckpointNumber)
         == WithoutCheckpoint(Sort(front + [x], CheckpointNumber), id)
  {
    var left := WithoutCheckpoint(front, id);
    SortSorts(front, CheckpointNumber);
    InsertThenRemove(Sort(front, CheckpointNumber), x, id);
    WithoutOfSnoc(front, x, id);
    SortOfSnoc(front, x);
    if x.checkpointId != id {
      SortOfSnoc(left, x);
    } else {
      assert left + [] == left;
    }
  }

  lemma {:induction false} SortOfRemoved(rows: seq<Checkpoint>, id: string)
    ensures Sort(WithoutCheckpoint(rows, id), CheckpointNumber) == WithoutCheckpoint(Sort(rows, CheckpointNumber), id)
  {
    if rows == [] {
    } else {
      var front, x := rows[..|rows| - 1], rows[|rows| - 1];
      assert rows == front + [x];
      SortOfRemoved(front, id);
      SortOfRemovedStep(front, x, id);
    }
  }

  // ----- the unbounded reference -----

  /** All checkpoints of a run, the latest creation of each id with its later updates; never sorted or cut. */
  ghost function Unbounded(events: seq<Event>): seq<Checkpoint> {
    if events == [] then []
    else
      var rows, e := Unbounded(events[..|events| - 1]), events[|events| - 1];
      UncutAfter(rows, e)
  }

  ghost function UncutAfter(rows: seq<Checkpoint>, e: Event): seq<Checkpoint> {
    if e.payload.CheckpointCreated? then WithoutCheckpoint(rows, e.payload.checkpointId) + [NewCheckpoint(e)]
    else if e.payload.CheckpointReadinessChanged? || e.payload.CheckpointReverted? then RowsAfter(rows, e)
    else rows
  }

  /** Of sorted rows the newest `n` are retained: `x` has the id of one, and a number below a dropped row's. */
  ghost predicate Lowers(sorted: seq<Checkpoint>, x: Checkpoint, n: nat) {
    && HasCheckpoint(TakeRight(sorted, n), x.checkpointId)
    && |sorted| > n
    && CheckpointNumber(sorted[|sorted| - n - 1]) > CheckpointNumber(x)
  }

  /** `e` creates a retained id again, with a number below that of the newest row already dropped. */
  ghost predicate Sinks(rows: seq<Checkpoint>, e: Event) {
    && e.payload.CheckpointCreated?
    && Lowers(Sort(rows, CheckpointNumber), NewCheckpoint(e), MAX_RPC_SESSION_CHECKPOINTS)
  }

  /** Putting `x` in gives the same newest `n` rows with and without the rows below them. */
  ghost predicate AddsAlike(sorted: seq<Checkpoint>, x: Checkpoint, n: nat) {
    TakeRight(Insert(WithoutCheckpoint(TakeRight(sorted, n), x.checkpointId), x, CheckpointNumber), n)
    == TakeRight(Insert(WithoutCheckpoint(sorted, x.checkpointId), x, CheckpointNumber), n)
  }

  lemma {:induction false} UnboundedIsDistinct(events: seq<Event>)
    ensures DistinctIds(Unbounded(events))
  {
    if events == [] {
    } else {
      var front, e := events[..|events| - 1], events[|events| - 1];
      UnboundedIsDistinct(front);
      if e.payload.CheckpointCreated? {
        WithoutIsDistinct(Unbounded(front), e.payload.checkpointId);
        DistinctOfSnoc(WithoutCheckpoint(Unbounded(front), e.payload.checkpointId), NewCheckpoint(e));
      } else {
        MappedIsDistinct(Unbounded(front), e);
      }
    }
  }

  /** The dropped rows, then the retained ones. */
  lemma {:induction false} TakeRightSplits(rows: seq<Checkpoint>, n: nat)
    ensures |rows| > n ==> rows == rows[..|rows| - n] + TakeRight(rows, n) && |TakeRight(rows, n)| == n
  {
  }

  lemma TakeRightOfAppend(a: seq<Checkpoint>, b: seq<Checkpoint>)
    ensures TakeRight(a + b, |b|) == b
  {
  }

  /** An id outside the newest rows: taking it out of the dropped ones leaves the newest as they are. */
  lemma RemovedBelow(rows: seq<Checkpoint>, id: string, n: nat)
    requires !HasCheckpoint(TakeRight(rows, n), id)
    ensures TakeRight(WithoutCheckpoint(rows, id), n) == TakeRight(rows, n)
  {
    NothingToRemove(TakeRight(rows, n), id);
    if |rows| > n {
      TakeRightSplits(rows, n);
      WithoutOfAppend(rows[..|rows| - n], TakeRight(rows, n), id);
      TakeRightOfAppend(WithoutCheckpoint(rows[..|rows| - n], id), TakeRight(rows, n));
    }
  }

  lemma DroppedBelow(rows: seq<Checkpoint>, x: Checkpoint, n: nat)
    requires !HasCheckpoint(TakeRight(rows, n), x.checkpointId)
    ensures AddsAlike(rows, x, n)
  {
    NothingToRemove(TakeRight(rows, n), x.checkpointId);
    RemovedBelow(rows, x.checkpointId, n);
    InsertIntoNewest(rows, x, n);
    InsertIntoNewest(WithoutCheckpoint(rows, x.checkpointId), x, n);
  }

  lemma {:induction false} InsertBehindFront(
    front: seq<Checkpoint>, d: Checkpoint, back: seq<Checkpoint>, x: Checkpoint)
    requires CheckpointNumber(d) <= CheckpointNumber(x)
    ensures Insert(front + [d] + back, x, CheckpointNumber) == front + [d] + Insert(back, x, CheckpointNumber)
  {
    if back == [] {
      InsertOfSnoc(front, d, x);
      assert front + [d] + back == front + [d];
    } else {
      var rest, last := back[..|back| - 1], back[|back| - 1];
      assert back == rest + [last];
      assert front + [d] + back == front + [d] + rest + [last];
      InsertOfSnoc(front + [d] + rest, last, x);
      InsertBehindFront(front, d, rest, x);
    }
  }

  lemma DifferentHeads(d: Checkpoint, x: Checkpoint, kept: seq<Checkpoint>)
    requires d != x
    ensures [d] + kept != [x] + kept
  {
    assert ([d] + kept)[0] == d && ([x] + kept)[0] == x;
  }

  lemma Rises(front: seq<Checkpoint>, d: Checkpoint, kept: seq<Checkpoint>, x: Checkpoint)
    requires CheckpointNumber(d) <= CheckpointNumber(x)
    ensures TakeRight(Insert(front + [d] + kept, x, CheckpointNumber), |kept| + 1) == Insert(kept, x, CheckpointNumber)
  {
    InsertElements(kept, x, CheckpointNumber);
    InsertBehindFront(front, d, kept, x);
    TakeRightOfAppend(front + [d], Insert(kept, x, CheckpointNumber));
  }

  lemma InsertBelow(front: seq<Checkpoint>, d: Checkpoint, kept: seq<Checkpoint>, x: Checkpoint)
    requires forall y :: y in kept ==> CheckpointNumber(x) < CheckpointNumber(y)
    requires CheckpointNumber(x) < CheckpointNumber(d)
    ensures Insert(front + [d] + kept, x, CheckpointNumber) == Insert(front, x, CheckpointNumber) + ([d] + kept)
  {
    InsertBefore(front + [d], kept, x, CheckpointNumber);
    InsertOfSnoc(front, d, x);
    Regroup(Insert(front, x, CheckpointNumber), [d], kept);
  }

  lemma SinksBelow(front: seq<Checkpoint>, d: Checkpoint, kept: seq<Checkpoint>, x: Checkpoint)
    requires forall y :: y in kept ==> CheckpointNumber(x) < CheckpointNumber(y)
    requires CheckpointNumber(x) < CheckpointNumber(d)
    ensures TakeRight(Insert(front + [d] + kept, x, CheckpointNumber), |kept| + 1) == [d] + kept
  {
    InsertBelow(front, d, kept, x);
    TakeRightOfAppend(Insert(front, x, CheckpointNumber), [d] + kept);
  }

  /** `kept` stays, `d` comes back from the dropped rows, `x` is added and the lowest goes. */
  lemma RisesOrSinks(front: seq<Checkpoint>, d: Checkpoint, kept: seq<Checkpoint>, x: Checkpoint)
    requires forall y :: y in kept ==> CheckpointNumber(d) <= CheckpointNumber(y)
    ensures TakeRight(Insert(front + [d] + kept, x, CheckpointNumber), |kept| + 1) == Insert(kept, x, CheckpointNumber)
       <==> CheckpointNumber(d) <= CheckpointNumber(x)
  {
    if CheckpointNumber(d) <= CheckpointNumber(x) {
      Rises(front, d, kept, x);
    } else {
      SinksBelow(front, d, kept, x);
      InsertFirst(kept, x, CheckpointNumber);
      DifferentHeads(d, x, kept);
    }
  }

  lemma DistinctParts(a: seq<Checkpoint>, b: seq<Checkpoint>, id: string)
    requires DistinctIds(a + b) && HasCheckpoint(b, id)
    ensures !HasCheckpoint(a, id) && DistinctIds(b)
  {
    var k :| 0 <= k < |b| && b[k].checkpointId == id;
    assert (a + b)[|a| + k] == b[k];
    forall i | 0 <= i < |a| ensures a[i].checkpointId != id {
      assert (a + b)[i] == a[i];
    }
    forall i, j | 0 <= i < j < |b| ensures b[i].checkpointId != b[j].checkpointId {
      assert (a + b)[|a| + i] == b[i] && (a + b)[|a| + j] == b[j];
    }
  }

  /** The rows left when a retained id is taken out. */
  lemma RetainedGoes(dropped: seq<Checkpoint>, kept: seq<Checkpoint>, id: string)
    requires DistinctIds(dropped + kept) && HasCheckpoint(kept, id)
    ensures WithoutCheckpoint(dropped + kept, id) == dropped + WithoutCheckpoint(kept, id)
    ensures |kept| == |WithoutCheckpoint(kept, id)| + 1
  {
    DistinctParts(dropped, kept, id);
    OneRowGoes(kept, id);
    NothingToRemove(dropped, id);
    WithoutOfAppend(dropped, kept, id);
  }

  lemma DroppedIsLower(front: seq<Checkpoint>, d: Checkpoint, kept: seq<Checkpoint>, y: Checkpoint)
    requires Sorted(front + [d] + kept, CheckpointNumber) && y in kept
    ensures CheckpointNumber(d) <= CheckpointNumber(y)
  {
    var k :| 0 <= k < |kept| && kept[k] == y;
    var all := front + [d] + kept;
    assert all[|front|] == d && all[|front| + 1 + k] == y;
  }

  /** Creating a retained id again: right exactly when its number is not below the newest dropped row's. */
  lemma RetainedAgain(front: seq<Checkpoint>, d: Checkpoint, kept: seq<Checkpoint>, x: Checkpoint)
    requires Sorted(front + [d] + kept, CheckpointNumber)
    requires DistinctIds(front + [d] + kept) && HasCheckpoint(kept, x.checkpointId)
    ensures (TakeRight(Insert(WithoutCheckpoint(front + [d] + kept, x.checkpointId), x, CheckpointNumber), |kept|)
             == TakeRight(Insert(WithoutCheckpoint(kept, x.checkpointId), x, CheckpointNumber), |kept|)
             <==> CheckpointNumber(d) <= CheckpointNumber(x))
  {
    RetainedGoes(front + [d], kept, x.checkpointId);
    forall y | y in kept ensures CheckpointNumber(d) <= CheckpointNumber(y) {
      DroppedIsLower(front, d, kept, y);
    }
    LeftOver(front, d, kept, x);
    InsertElements(WithoutCheckpoint(kept, x.checkpointId), x, CheckpointNumber);
  }

  lemma LeftOver(front: seq<Checkpoint>, d: Checkpoint, kept: seq<Checkpoint>, x: Checkpoint)
    requires forall y :: y in kept ==> CheckpointNumber(d) <= CheckpointNumber(y)
    ensures (var left := WithoutCheckpoint(kept, x.checkpointId);
             TakeRight(Insert(front + [d] + left, x, CheckpointNumber), |left| + 1) == Insert(left, x, CheckpointNumber)
             <==> CheckpointNumber(d) <= CheckpointNumber(x))
  {
    var left := WithoutCheckpoint(kept, x.checkpointId);
    forall y | y in left ensures CheckpointNumber(d) <= CheckpointNumber(y) {
      WithoutMember(kept, x.checkpointId, y);
    }
    RisesOrSinks(front, d, left, x);
  }

  lemma SortedIsDistinct(rows: seq<Checkpoint>)
    requires DistinctIds(rows)
    ensures DistinctIds(Sort(rows, CheckpointNumber)) && Sorted(Sort(rows, CheckpointNumber), CheckpointNumber)
  {
    SortIsDistinct(rows);
    SortSorts(rows, CheckpointNumber);
  }

  lemma RetainOfAdded(rows: seq<Checkpoint>, x: Checkpoint)
    ensures RetainNewest(WithoutCheckpoint(rows, x.checkpointId) + [x])
         == TakeRight(
              Insert(WithoutCheckpoint(Sort(rows, CheckpointNumber), x.checkpointId), x, CheckpointNumber),
              MAX_RPC_SESSION_CHECKPOINTS)
  {
    SortOfSnoc(WithoutCheckpoint(rows, x.checkpointId), x);
    SortOfRemoved(rows, x.checkpointId);
  }

  lemma CreatedAbove(front: seq<Checkpoint>, d: Checkpoint, kept: seq<Checkpoint>, x: Checkpoint)
    requires Sorted(front + [d] + kept, CheckpointNumber)
    requires DistinctIds(front + [d] + kept) && HasCheckpoint(kept, x.checkpointId)
    ensures AddsAlike(front + [d] + kept, x, |kept|) <==> !Lowers(front + [d] + kept, x, |kept|)
  {
    TakeRightOfAppend(front + [d], kept);
    assert (front + [d] + kept)[|front|] == d;
    RetainedAgain(front, d, kept, x);
  }

  lemma CreatedOnSorted(sorted: seq<Checkpoint>, x: Checkpoint, n: nat)
    requires DistinctIds(sorted) && Sorted(sorted, CheckpointNumber)
    ensures AddsAlike(sorted, x, n) <==> !Lowers(sorted, x, n)
  {
    if !HasCheckpoint(TakeRight(sorted, n), x.checkpointId) {
      DroppedBelow(sorted, x, n);
    } else if |sorted| > n {
      var cut := |sorted| - n - 1;
      var front, d, kept := sorted[..cut], sorted[cut], TakeRight(sorted, n);
      assert sorted == front + [d] + kept;
      CreatedAbove(front, d, kept, x);
    }
  }

  lemma CreatedStep(rows: seq<Checkpoint>, e: Event)
    requires DistinctIds(rows) && e.payload.CheckpointCreated?
    ensures CheckpointsAfter(RetainNewest(rows), e) == RetainNewest(UncutAfter(rows, e)) <==> !Sinks(rows, e)
  {
    RetainOfAdded(rows, NewCheckpoint(e));
    RetainOfAdded(RetainNewest(rows), NewCheckpoint(e));
    RetainedIsSorted(rows);
    SortedIsDistinct(rows);
    CreatedOnSorted(Sort(rows, CheckpointNumber), NewCheckpoint(e), MAX_RPC_SESSION_CHECKPOINTS);
  }

  lemma CheckpointStep(rows: seq<Checkpoint>, e: Event)
    requires DistinctIds(rows)
    ensures CheckpointsAfter(RetainNewest(rows), e) == RetainNewest(UncutAfter(rows, e)) <==> !Sinks(rows, e)
  {
    if e.payload.CheckpointCreated? {
      CreatedStep(rows, e);
    } else if e.payload.CheckpointReadinessChanged? || e.payload.CheckpointReverted? {
      RetainThenMap(rows, e);
    }
  }

  /** The list folded with a cut after every event is the one that a single sort and cut at the end would give. */
  ghost predicate InStep(from: nat, events: seq<Event>) {
    Fold(Empty(from), events).checkpoints == RetainNewest(Unbounded(Admitted(from, None, events)))
  }

  ghost predicate AlwaysInStep(from: nat, events: seq<Event>) {
    forall n :: 0 <= n <= |events| ==> InStep(from, events[..n])
  }

  ghost predicate NoneSinks(events: seq<Event>) {
    forall n :: 0 <= n < |events| ==> !Sinks(Unbounded(events[..n]), events[n])
  }

  lemma AlwaysInStepOfSnoc(from: nat, events: seq<Event>, e: Event)
    ensures AlwaysInStep(from, events + [e]) <==> AlwaysInStep(from, events) && InStep(from, events + [e])
  {
    var more := events + [e];
    assert more[..|more|] == more;
    assert forall n :: 0 <= n <= |events| ==> more[..n] == events[..n];
    assert AlwaysInStep(from, more) ==> InStep(from, more[..|more|]);
    forall n | 0 <= n <= |events| ensures AlwaysInStep(from, more) ==> InStep(from, events[..n]) {
      assert more[..n] == events[..n];
    }
  }

  lemma NoneSinksOfSnoc(events: seq<Event>, e: Event)
    ensures NoneSinks(events + [e]) <==> NoneSinks(events) && !Sinks(Unbounded(events), e)
  {
    var more := events + [e];
    assert more[..|events|] == events && more[|events|] == e;
    assert forall n :: 0 <= n < |events| ==> more[..n] == events[..n] && more[n] == events[n];
    forall n | 0 <= n < |events| ensures NoneSinks(more) ==> !Sinks(Unbounded(events[..n]), events[n]) {
      assert more[..n] == events[..n];
    }
  }

  lemma UnboundedOfSnoc(events: seq<Event>, e: Event)
    ensures Unbounded(events + [e]) == UncutAfter(Unbounded(events), e)
  {
    assert (events + [e])[..|events|] == events;
  }

  lemma InStepOfSnoc(from: nat, front: seq<Event>, e: Event)
    requires InStep(from, front)
    ensures InStep(from, front + [e])
       <==> !(Admits(from, None, front, e) && Sinks(Unbounded(Admitted(from, None, front)), e))
  {
    var taken := Admitted(from, None, front);
    AdmittedStep(from, None, front, e);
    FoldStep(Empty(from), front, e);
    if Admits(from, None, front, e) {
      UnboundedIsDistinct(taken);
      UnboundedOfSnoc(taken, e);
      CheckpointStep(Unbounded(taken), e);
    } else {
      assert taken + [] == taken;
    }
  }

  /**
   * Cutting to the newest 500 after every event gives, at every point of the run, the list that never
   * cutting and sorting and cutting once would give, exactly when no event creates a retained id again
   * with a number below that of a row already dropped.
   */
  lemma {:induction false} CuttingEarlyIsHarmless(from: nat, events: seq<Event>)
    ensures AlwaysInStep(from, events) <==> NoneSinks(Admitted(from, None, events))
  {
    if events == [] {
      assert events[..0] == [];
    } else {
      var front, e := events[..|events| - 1], events[|events| - 1];
      var taken := Admitted(from, None, front);
      assert events == front + [e];
      CuttingEarlyIsHarmless(from, front);
      AlwaysInStepOfSnoc(from, front, e);
      AdmittedStep(from, None, front, e);
      NoneSinksOfSnoc(taken, e);
      if AlwaysInStep(from, front) {
        assert InStep(from, front[..|front|]) && front[..|front|] == front;
        InStepOfSnoc(from, front, e);
      }
      assert taken + [] == taken;
    }
  }

  // ----- where it fails -----

  function UnaryId(n: nat): string {
    if n == 0 then "" else UnaryId(n - 1) + "c"
  }

  lemma {:induction false} UnaryIdLength(n: nat)
    ensures |UnaryId(n)| == n
  {
    if n == 0 {
    } else {
      UnaryIdLength(n - 1);
    }
  }

  function Creation(sequence: nat, id: string, number: nat): Event {
    Event(sequence, "", CheckpointCreated("s", id, number, None, false, None, 0))
  }

  /** `n` creations of different ids, numbered 2, 3, ... */
  function Rising(from: nat, n: nat): seq<Event> {
    if n == 0 then [] else Rising(from, n - 1) + [Creation(from + n, UnaryId(n), n + 1)]
  }

  lemma AdmittedNext(from: nat, front: seq<Event>, e: Event)
    requires Admitted(from, None, front) == front && HolderAfter(from, None, front) == None
    requires e.sequence > MaxSequence(from, front) && e.payload.CheckpointCreated?
    ensures Admitted(from, None, front + [e]) == front + [e] && HolderAfter(from, None, front + [e]) == None
    ensures MaxSequence(from, front + [e]) == e.sequence
  {
    assert (front + [e])[..|front|] == front;
  }

  lemma {:induction false} RisingIsAdmitted(from: nat, n: nat)
    ensures var run := Rising(from, n);
      && Admitted(from, None, run) == run && HolderAfter(from, None, run) == None
      && MaxSequence(from, run) == from + n
  {
    if n == 0 {
    } else {
      RisingIsAdmitted(from, n - 1);
      AdmittedNext(from, Rising(from, n - 1), Creation(from + n, UnaryId(n), n + 1));
    }
  }

  ghost predicate RisingRow(row: Checkpoint, i: nat) {
    row.checkpointId == UnaryId(i + 1) && row.checkpointNumber == i + 2
  }

  ghost predicate RisingRows(rows: seq<Checkpoint>, n: nat) {
    |rows| == n && forall i :: 0 <= i < n ==> RisingRow(rows[i], i)
  }

  lemma NextIdIsNew(rows: seq<Checkpoint>, n: nat)
    requires RisingRows(rows, n)
    ensures !HasCheckpoint(rows, UnaryId(n + 1))
  {
    forall i | 0 <= i < n ensures rows[i].checkpointId != UnaryId(n + 1) {
      assert RisingRow(rows[i], i);
      UnaryIdLength(i + 1);
      UnaryIdLength(n + 1);
    }
  }

  lemma {:induction false} UnboundedRises(from: nat, n: nat)
    ensures RisingRows(Unbounded(Rising(from, n)), n)
  {
    if n == 0 {
    } else {
      var rows, e := Unbounded(Rising(from, n - 1)), Creation(from + n, UnaryId(n), n + 1);
      UnboundedRises(from, n - 1);
      UnboundedOfSnoc(Rising(from, n - 1), e);
      NextIdIsNew(rows, n - 1);
      NothingToRemove(rows, UnaryId(n));
    }
  }

  lemma RisingRowsLower(rows: seq<Checkpoint>, n: nat, x: Checkpoint)
    requires RisingRows(rows, n) && n > MAX_RPC_SESSION_CHECKPOINTS
    requires x.checkpointId == UnaryId(n) && x.checkpointNumber == 1
    ensures Lowers(Sort(rows, CheckpointNumber), x, MAX_RPC_SESSION_CHECKPOINTS)
  {
    forall i, j | 0 <= i < j < n ensures CheckpointNumber(rows[i]) <= CheckpointNumber(rows[j]) {
      assert RisingRow(rows[i], i) && RisingRow(rows[j], j);
    }
    SortOfSorted(rows);
    var kept := TakeRight(rows, MAX_RPC_SESSION_CHECKPOINTS);
    assert kept[MAX_RPC_SESSION_CHECKPOINTS - 1] == rows[n - 1] && RisingRow(rows[n - 1], n - 1);
    assert RisingRow(rows[n - MAX_RPC_SESSION_CHECKPOINTS - 1], n - MAX_RPC_SESSION_CHECKPOINTS - 1);
  }

  /** More than 500 creations, and the newest id once more with the lowest number: the two lists part. */
  lemma RecreatedRowIsKeptTooLong(from: nat, n: nat)
    requires n > MAX_RPC_SESSION_CHECKPOINTS
    ensures var again := Creation(from + n + 1, UnaryId(n), 1);
      && Sinks(Unbounded(Rising(from, n)), again)
      && !AlwaysInStep(from, Rising(from, n) + [again])
  {
    var front, again := Rising(from, n), Creation(from + n + 1, UnaryId(n), 1);
    UnboundedRises(from, n);
    RisingRowsLower(Unbounded(front), n, NewCheckpoint(again));
    RisingIsAdmitted(from, n);
    AdmittedNext(from, front, again);
    NoneSinksOfSnoc(front, again);
    CuttingEarlyIsHarmless(from, front + [again]);
  }
}
