/**
 * The resuming event stream (considerEvent, exclusiveEvents, resumeEvents and
 * makeResumingRpcClient in packages/contracts/src/rpc.ts), and the snapshot it feeds.
 */
module ResumingClient {
  import opened Sequences
  import opened Wrappers
  import opened SessionSnapshot

  // ----- the cursor -----

  /** The cursor after considering an event, and whether the event is passed on. */
  function Consider(cursor: nat, e: Event): (nat, bool) {
    if e.sequence <= cursor then (cursor, false) else (e.sequence, true)
  }

  /** The cursor and the passed events after a whole connection. */
  ghost function Exclusive(cursor: nat, events: seq<Event>): (nat, seq<Event>) {
    if events == [] then (cursor, [])
    else
      var (before, passed) := Exclusive(cursor, events[..|events| - 1]);
      var e := events[|events| - 1];
      var (after, keep) := Consider(before, e);
      (after, if keep then passed + [e] else passed)
  }

  class ResumingStream {
    var cursor: nat

    constructor (fromSequence: nat)
      ensures cursor == fromSequence
    {
      cursor := fromSequence;
    }

    method ConsiderEvent(e: Event) returns (passed: Option<Event>)
      modifies this
      ensures passed == if e.sequence > old(cursor) then Some(e) else None
      ensures cursor == if e.sequence > old(cursor) then e.sequence else old(cursor)
    {
      var last := cursor;
      if e.sequence <= last {
        return None;
      }
      cursor := e.sequence;
      return Some(e);
    }

    /** One connection: its events filtered through the shared cursor. */
    method ExclusiveEvents(events: seq<Event>) returns (passed: seq<Event>)
      modifies this
      ensures (cursor, passed) == Exclusive(old(cursor), events)
      ensures forall i :: 0 <= i < |passed| ==> old(cursor) < passed[i].sequence <= cursor
      ensures Increasing(passed)
    {
      passed := [];
      for i := 0 to |events|
        invariant (cursor, passed) == Exclusive(old(cursor), events[..i])
        invariant old(cursor) <= cursor
        invariant forall j :: 0 <= j < |passed| ==> old(cursor) < passed[j].sequence <= cursor
        invariant Increasing(passed)
      {
        assert events[..i + 1][..i] == events[..i];
        var kept := ConsiderEvent(events[i]);
        if kept.Some? {
          passed := passed + [kept.value];
        }
      }
      assert events[..|events|] == events;
    }
  }

  // ----- the connection as a state machine -----

  /** `Up(next)`: the transport has sent every log entry before `next` that it is going to send in order. */
  datatype Link = Down | Up(next: nat)

  datatype State = State(log: seq<Event>, cursor: nat, link: Link, emitted: seq<Event>, failed: bool)

  datatype Step =
    /** The server commits a new event; its sequence is past the log's, with any hole in between. */
    | Commit(e: Event)
    /** A connection opens and will replay the log from `start`, at or before the cursor. */
    | Connect(start: nat)
    | Deliver
    /** The transport sends an entry again. */
    | Repeat(index: nat)
    /** The stream ends or breaks with a transport error, after which it is reopened. */
    | Drop
    /** Any other error ends the stream for good. */
    | Fail

  predicate Newest(log: seq<Event>, e: Event) {
    log == [] || log[|log| - 1].sequence < e.sequence
  }

  ghost predicate NothingMissed(log: seq<Event>, start: nat, cursor: nat) {
    start <= |log| && forall i :: 0 <= i < start ==> log[i].sequence <= cursor
  }

  function Receive(s: State, e: Event): State {
    var (cursor, keep) := Consider(s.cursor, e);
    s.(cursor := cursor, emitted := if keep then s.emitted + [e] else s.emitted)
  }

  /** A step that is not enabled changes nothing. */
  ghost function Next(s: State, step: Step): State {
    match step
    case Commit(e) => if Newest(s.log, e) then s.(log := s.log + [e]) else s
    case Connect(start) =>
      if !s.failed && s.link.Down? && NothingMissed(s.log, start, s.cursor) then s.(link := Up(start)) else s
    case Deliver =>
      if s.link.Up? && s.link.next < |s.log|
      then Receive(s, s.log[s.link.next]).(link := Up(s.link.next + 1)) else s
    case Repeat(index) =>
      if s.link.Up? && index < s.link.next && index < |s.log| then Receive(s, s.log[index]) else s
    case Drop => s.(link := Down)
    case Fail => s.(link := Down, failed := true)
  }

  function Start(log: seq<Event>, fromSequence: nat): State {
    State(log, fromSequence, Down, [], false)
  }

  ghost function Run(log: seq<Event>, fromSequence: nat, steps: seq<Step>): State {
    if steps == [] then Start(log, fromSequence)
    else Next(Run(log, fromSequence, steps[..|steps| - 1]), steps[|steps| - 1])
  }

  // ----- exactly once, in order -----

  /** The log entries with `from < sequence <= to`, in order. */
  ghost function Between(log: seq<Event>, from: nat, to: nat): seq<Event> {
    if log == [] then []
    else
      var e := log[|log| - 1];
      Between(log[..|log| - 1], from, to) + if from < e.sequence <= to then [e] else []
  }

  ghost predicate StreamOk(s: State, from: nat) {
    && Increasing(s.log)
    && from <= s.cursor
    && s.emitted == Between(s.log, from, s.cursor)
    && (s.cursor == from || exists i :: 0 <= i < |s.log| && s.log[i].sequence == s.cursor)
    && (s.link.Up? ==> NothingMissed(s.log, s.link.next, s.cursor))
  }

  lemma BetweenOfSnoc(log: seq<Event>, e: Event, from: nat, to: nat)
    ensures Between(log + [e], from, to) == Between(log, from, to) + if from < e.sequence <= to then [e] else []
  {
    assert (log + [e])[..|log|] == log;
  }

  lemma {:induction false} BetweenOfAppend(a: seq<Event>, b: seq<Event>, from: nat, to: nat)
    ensures Between(a + b, from, to) == Between(a, from, to) + Between(b, from, to)
  {
    if b == [] {
      assert a + b == a;
    } else {
      var front, e := b[..|b| - 1], b[|b| - 1];
      BetweenOfAppend(a, front, from, to);
      assert a + b == (a + front) + [e];
      BetweenOfSnoc(a + front, e, from, to);
      Regroup(Between(a, from, to), Between(front, from, to), if from < e.sequence <= to then [e] else []);
    }
  }

  lemma {:induction false} BetweenOfOlder(log: seq<Event>, from: nat, to: nat, later: nat)
    requires to <= later && forall i :: 0 <= i < |log| ==> log[i].sequence <= to
    ensures Between(log, from, to) == Between(log, from, later)
  {
    if log == [] {
    } else {
      BetweenOfOlder(log[..|log| - 1], from, to, later);
    }
  }

  lemma {:induction false} BetweenOfNewer(log: seq<Event>, from: nat, to: nat)
    requires forall i :: 0 <= i < |log| ==> log[i].sequence > to
    ensures Between(log, from, to) == []
  {
    if log == [] {
    } else {
      BetweenOfNewer(log[..|log| - 1], from, to);
    }
  }

  /** Moving the cursor to the next log entry adds exactly that entry. */
  lemma AdvanceByOne(log: seq<Event>, n: nat, from: nat, cursor: nat)
    requires Increasing(log) && n < |log| && NothingMissed(log, n, cursor)
    requires from <= cursor < log[n].sequence
    ensures Between(log, from, log[n].sequence) == Between(log, from, cursor) + [log[n]]
  {
    var older, newer := log[..n], log[n + 1..];
    assert log == older + [log[n]] + newer;
    AdvanceOverOne(older, log[n], newer, from, cursor);
  }

  lemma AdvanceOverOne(older: seq<Event>, e: Event, newer: seq<Event>, from: nat, cursor: nat)
    requires from <= cursor < e.sequence
    requires forall i :: 0 <= i < |older| ==> older[i].sequence <= cursor
    requires forall i :: 0 <= i < |newer| ==> newer[i].sequence > e.sequence
    ensures Between(older + [e] + newer, from, e.sequence) == Between(older + [e] + newer, from, cursor) + [e]
  {
    WithoutNewer(older + [e], newer, from, cursor);
    WithoutNewer(older + [e], newer, from, e.sequence);
    BetweenOfSnoc(older, e, from, cursor);
    BetweenOfSnoc(older, e, from, e.sequence);
    BetweenOfOlder(older, from, cursor, e.sequence);
    assert Between(older, from, cursor) + [] == Between(older, from, cursor);
  }

  lemma WithoutNewer(log: seq<Event>, newer: seq<Event>, from: nat, to: nat)
    requires forall i :: 0 <= i < |newer| ==> newer[i].sequence > to
    ensures Between(log + newer, from, to) == Between(log, from, to)
  {
    BetweenOfAppend(log, newer, from, to);
    BetweenOfNewer(newer, from, to);
    assert Between(log, from, to) + [] == Between(log, from, to);
  }

  lemma NewestIsAhead(log: seq<Event>, e: Event, i: nat)
    requires Increasing(log) && Newest(log, e) && i < |log|
    ensures log[i].sequence < e.sequence
  {
  }

  lemma CommitKeepsOk(s: State, from: nat, e: Event)
    requires StreamOk(s, from)
    ensures StreamOk(Next(s, Commit(e)), from)
  {
    if Newest(s.log, e) {
      var t := Next(s, Commit(e));
      BetweenOfSnoc(s.log, e, from, s.cursor);
      forall i | 0 <= i < |s.log| ensures s.log[i].sequence < e.sequence {
        NewestIsAhead(s.log, e, i);
      }
      if s.cursor != from {
        var i :| 0 <= i < |s.log| && s.log[i].sequence == s.cursor;
        assert t.log[i].sequence == s.cursor;
      }
    }
  }

  /** An entry that was already replayed is filtered out. */
  lemma RepeatKeepsOk(s: State, from: nat, index: nat)
    requires StreamOk(s, from)
    ensures Next(s, Repeat(index)) == s
  {
  }

  lemma DeliverKeepsOk(s: State, from: nat)
    requires StreamOk(s, from)
    ensures StreamOk(Next(s, Deliver), from)
  {
    if s.link.Up? && s.link.next < |s.log| {
      var n := s.link.next;
      var e := s.log[n];
      var t := Next(s, Deliver);
      if e.sequence > s.cursor {
        AdvanceByOne(s.log, n, from, s.cursor);
        assert t.log[n].sequence == t.cursor;
      }
    }
  }

  lemma StepKeepsOk(s: State, from: nat, step: Step)
    requires StreamOk(s, from)
    ensures StreamOk(Next(s, step), from)
  {
    match step
    case Commit(e) => CommitKeepsOk(s, from, e);
    case Connect(_) =>
    case Deliver => DeliverKeepsOk(s, from);
    case Repeat(index) => RepeatKeepsOk(s, from, index);
    case Drop =>
    case Fail =>
  }

  /**
   * However often the connection drops and wherever each replay starts, the client has emitted
   * exactly the log entries from its first cursor up to its present one: once each and in order.
   */
  lemma {:induction false} EmitsExactlyOnce(log: seq<Event>, from: nat, steps: seq<Step>)
    requires Increasing(log)
    ensures StreamOk(Run(log, from, steps), from)
  {
    if steps == [] {
      NothingBetween(log, from);
    } else {
      EmitsExactlyOnce(log, from, steps[..|steps| - 1]);
      StepKeepsOk(Run(log, from, steps[..|steps| - 1]), from, steps[|steps| - 1]);
    }
  }

  lemma {:induction false} NothingBetween(log: seq<Event>, from: nat)
    ensures Between(log, from, from) == []
  {
    if log == [] {
    } else {
      NothingBetween(log[..|log| - 1], from);
    }
  }

  // ----- catching up -----

  /** The connection has sent the whole log. */
  predicate CaughtUp(s: State) {
    s.link.Up? && s.link.next >= |s.log|
  }

  /** The log entries up to a sequence. */
  ghost function UpTo(log: seq<Event>, to: nat): seq<Event> {
    if log == [] then []
    else UpTo(log[..|log| - 1], to) + if log[|log| - 1].sequence <= to then [log[|log| - 1]] else []
  }

  lemma UpToOfSnoc(log: seq<Event>, e: Event, to: nat)
    ensures UpTo(log + [e], to) == UpTo(log, to) + if e.sequence <= to then [e] else []
  {
    assert (log + [e])[..|log|] == log;
  }

  lemma {:induction false} UpToIsPrefix(log: seq<Event>, to: nat)
    requires Increasing(log)
    ensures UpTo(log, to) <= log
    ensures forall i :: 0 <= i < |log| && log[i].sequence <= to ==> i < |UpTo(log, to)|
  {
    if log == [] {
    } else {
      var front, e := log[..|log| - 1], log[|log| - 1];
      assert log == front + [e];
      UpToOfSnoc(front, e, to);
      if e.sequence <= to {
        UpToOfOld(front, to);
      } else {
        UpToIsPrefix(front, to);
        assert UpTo(front, to) + [] == UpTo(front, to);
      }
    }
  }

  lemma {:induction false} UpToOfOld(log: seq<Event>, to: nat)
    requires forall i :: 0 <= i < |log| ==> log[i].sequence <= to
    ensures UpTo(log, to) == log
  {
    if log == [] {
    } else {
      var front, e := log[..|log| - 1], log[|log| - 1];
      UpToOfOld(front, to);
      UpToOfSnoc(front, e, to);
      assert log == front + [e];
    }
  }

  /** An entry behind the watermark adds nothing to a fold. */
  lemma FoldOneMore(s: Snapshot, between: seq<Event>, upTo: seq<Event>, e: Event)
    requires Fold(s, between) == Fold(s, upTo)
    ensures Fold(s, between + if s.snapshotSequence < e.sequence then [e] else []) == Fold(s, upTo + [e])
  {
    FoldOfSnoc(s, upTo, e);
    if s.snapshotSequence < e.sequence {
      FoldOfSnoc(s, between, e);
    } else {
      FoldWatermark(s, upTo);
      assert between + [] == between;
    }
  }

  ghost predicate FoldsAlike(s: Snapshot, a: seq<Event>, b: seq<Event>) {
    Fold(s, a) == Fold(s, b)
  }

  lemma FoldsAlikeWithOneMore(s: Snapshot, between: seq<Event>, upTo: seq<Event>, e: Event, to: nat)
    requires FoldsAlike(s, between, upTo)
    ensures FoldsAlike(s, between + (if s.snapshotSequence < e.sequence <= to then [e] else []),
                       upTo + (if e.sequence <= to then [e] else []))
  {
    if e.sequence <= to {
      FoldOneMore(s, between, upTo, e);
    } else {
      assert between + [] == between && upTo + [] == upTo;
    }
  }

  lemma {:induction false} EmittedFoldsAlike(s: Snapshot, log: seq<Event>, to: nat)
    ensures FoldsAlike(s, Between(log, s.snapshotSequence, to), UpTo(log, to))
  {
    if log == [] {
    } else {
      var front, e := log[..|log| - 1], log[|log| - 1];
      EmittedFoldsAlike(s, front, to);
      FoldsAlikeWithOneMore(s, Between(front, s.snapshotSequence, to), UpTo(front, to), e, to);
    }
  }

  /** Folding what the client emitted is folding every log entry up to its cursor. */
  lemma FoldOfEmitted(s: Snapshot, log: seq<Event>, to: nat)
    ensures Fold(s, Between(log, s.snapshotSequence, to)) == Fold(s, UpTo(log, to))
  {
    EmittedFoldsAlike(s, log, to);
  }

  lemma {:induction false} IncreasingMax(from: nat, log: seq<Event>, k: nat, i: nat)
    requires i < k <= |log|
    ensures log[i].sequence <= MaxSequence(from, log[..k])
  {
    MaxSequenceBounds(from, log[..k], i);
  }

  /** A snapshot of a log prefix, moved on by log entries up to a later point. */
  lemma FoldFromPrefix(base: nat, log: seq<Event>, k: nat, to: nat)
    requires Increasing(log) && k <= |log| && Fold(Empty(base), log[..k]).snapshotSequence <= to
    ensures Fold(Fold(Empty(base), log[..k]), UpTo(log, to)) == Fold(Empty(base), UpTo(log, to))
  {
    var prefix, whole := log[..k], UpTo(log, to);
    UpToIsPrefix(log, to);
    FoldWatermark(Empty(base), prefix);
    assert k <= |whole| by {
      if k > 0 {
        IncreasingMax(base, log, k, k - 1);
      }
    }
    assert whole == prefix + whole[k..];
    FoldOfAppend(Fold(Empty(base), prefix), prefix, whole[k..]);
    ReplayIsIdempotent(Empty(base), prefix);
    FoldOfAppend(Empty(base), prefix, whole[k..]);
  }

  lemma {:induction false} LogOnlyGrows(log: seq<Event>, from: nat, steps: seq<Step>)
    ensures log <= Run(log, from, steps).log
  {
    if steps == [] {
    } else {
      LogOnlyGrows(log, from, steps[..|steps| - 1]);
    }
  }

  /**
   * A client that starts from the snapshot of any log prefix and folds what its resuming stream
   * emits holds, at every moment of every run, the fold of the whole log up to its cursor.
   */
  lemma SnapshotTracksLog(base: nat, log: seq<Event>, k: nat, steps: seq<Step>)
    requires Increasing(log) && k <= |log|
    ensures var snapshot := Fold(Empty(base), log[..k]);
            var s := Run(log, snapshot.snapshotSequence, steps);
            && Fold(snapshot, s.emitted) == Fold(Empty(base), UpTo(s.log, s.cursor))
            && (CaughtUp(s) ==> Fold(snapshot, s.emitted) == Fold(Empty(base), s.log))
  {
    var snapshot := Fold(Empty(base), log[..k]);
    var s := Run(log, snapshot.snapshotSequence, steps);
    EmitsExactlyOnce(log, snapshot.snapshotSequence, steps);
    LogOnlyGrows(log, snapshot.snapshotSequence, steps);
    assert s.log[..k] == log[..k];
    FoldOfEmitted(snapshot, s.log, s.cursor);
    FoldFromPrefix(base, s.log, k, s.cursor);
    if CaughtUp(s) {
      UpToOfOld(s.log, s.cursor);
    }
  }

  // ----- a connection that lasts delivers everything -----

  /** `n` entries are sent in order. */
  function Delivers(n: nat): seq<Step> {
    if n == 0 then [] else Delivers(n - 1) + [Deliver]
  }

  lemma RunOfSnoc(log: seq<Event>, from: nat, steps: seq<Step>, step: Step)
    ensures Run(log, from, steps + [step]) == Next(Run(log, from, steps), step)
  {
    assert (steps + [step])[..|steps|] == steps;
  }

  /** Connected, with the entries before `next` sent. */
  ghost predicate SentUpTo(s: State, log: seq<Event>, next: nat) {
    s.log == log && s.link == Up(next)
  }

  lemma DeliverMovesOn(s: State, log: seq<Event>, next: nat)
    requires SentUpTo(s, log, next) && next < |log|
    ensures SentUpTo(Next(s, Deliver), log, next + 1)
  {
  }

  lemma ReopenedFrom(s: State, start: nat)
    requires !s.failed && NothingMissed(s.log, start, s.cursor)
    ensures SentUpTo(Next(Next(s, Drop), Connect(start)), s.log, start)
  {
  }

  lemma {:induction false} DeliversMove(
    first: seq<Event>, from: nat, steps: seq<Step>, log: seq<Event>, start: nat, n: nat)
    requires SentUpTo(Run(first, from, steps), log, start) && start + n <= |log|
    ensures SentUpTo(Run(first, from, steps + Delivers(n)), log, start + n)
  {
    if n == 0 {
      assert steps + [] == steps;
    } else {
      DeliversMove(first, from, steps, log, start, n - 1);
      RunOfSnoc(first, from, steps + Delivers(n - 1), Deliver);
      DeliverMovesOn(Run(first, from, steps + Delivers(n - 1)), log, start + n - 1);
      Regroup(steps, Delivers(n - 1), [Deliver]);
    }
  }

  /** The steps of a reconnection at `start` that then stays up until the log is through. */
  function Reconnection(log: seq<Event>, start: nat): seq<Step>
    requires start <= |log|
  {
    [Drop] + [Connect(start)] + Delivers(|log| - start)
  }

  lemma ReopenedRun(first: seq<Event>, from: nat, steps: seq<Step>, start: nat)
    requires var s := Run(first, from, steps); !s.failed && NothingMissed(s.log, start, s.cursor)
    ensures SentUpTo(Run(first, from, steps + ([Drop] + [Connect(start)])), Run(first, from, steps).log, start)
  {
    RunOfSnoc(first, from, steps, Drop);
    RunOfSnoc(first, from, steps + [Drop], Connect(start));
    Regroup(steps, [Drop], [Connect(start)]);
    ReopenedFrom(Run(first, from, steps), start);
  }

  /** After any run that has not failed, a reconnection that stays up catches up, wherever its replay starts. */
  lemma ReconnectCatchesUp(first: seq<Event>, from: nat, steps: seq<Step>, start: nat)
    requires var s := Run(first, from, steps); !s.failed && NothingMissed(s.log, start, s.cursor)
    ensures var s := Run(first, from, steps);
      var t := Run(first, from, steps + Reconnection(s.log, start));
      t.log == s.log && CaughtUp(t)
  {
    var log := Run(first, from, steps).log;
    ReopenedRun(first, from, steps, start);
    DeliversMove(first, from, steps + ([Drop] + [Connect(start)]), log, start, |log| - start);
    Regroup(steps, [Drop] + [Connect(start)], Delivers(|log| - start));
  }

  /** So the client then has every log entry past its first cursor, and its snapshot is that of the whole log. */
  lemma ReconnectDelivers(base: nat, log: seq<Event>, k: nat, steps: seq<Step>, start: nat)
    requires Increasing(log) && k <= |log|
    requires var s := Run(log, Fold(Empty(base), log[..k]).snapshotSequence, steps);
      !s.failed && NothingMissed(s.log, start, s.cursor)
    ensures var snapshot := Fold(Empty(base), log[..k]);
      var from := snapshot.snapshotSequence;
      var s := Run(log, from, steps);
      var t := Run(log, from, steps + Reconnection(s.log, start));
      && (forall e :: e in s.log && e.sequence > from ==> e in t.emitted)
      && Fold(snapshot, t.emitted) == Fold(Empty(base), s.log)
  {
    var from := Fold(Empty(base), log[..k]).snapshotSequence;
    var s := Run(log, from, steps);
    var more := steps + Reconnection(s.log, start);
    var t := Run(log, from, more);
    ReconnectCatchesUp(log, from, steps, start);
    SnapshotTracksLog(base, log, k, more);
    EmitsExactlyOnce(log, from, more);
    forall e | e in s.log && e.sequence > from ensures e in t.emitted {
      var i :| 0 <= i < |t.log| && t.log[i] == e;
      BetweenHolds(t.log, from, t.cursor, i);
    }
  }

  lemma {:induction false} BetweenHolds(log: seq<Event>, from: nat, to: nat, i: nat)
    requires i < |log| && from < log[i].sequence <= to
    ensures log[i] in Between(log, from, to)
  {
    if i == |log| - 1 {
    } else {
      BetweenHolds(log[..|log| - 1], from, to, i);
    }
  }
}
