/**
 * Where notifications end up (packages/harness/src/correlate.ts): those that arrived while a request was
 * open against those in the exchanges returned and still open.
 */
module CorrelatorAccounts {
  import opened Wrappers
  import opened Json
  import opened Correlator

  // ----- what arrives while a request is open -----

  /** The notification at `t` arrives while some request is unanswered. */
  ghost predicate IsHeard(run: seq<Line>, t: nat)
    requires t < |run|
  {
    IsNotification(run[t]) && exists i: nat :: IsOpen(run, i, t)
  }

  lemma HeardMeaning(run: seq<Line>, t: nat)
    requires t < |run|
    ensures IsHeard(run, t) <==> IsNotification(run[t]) && Oldest(run, t).Some?
  {
    if Oldest(run, t).Some? {
      OpenListMeaning(run, t, Oldest(run, t).value);
    }
    if i: nat :| IsOpen(run, i, t) {
      OpenListMeaning(run, t, i);
    }
  }

  ghost function Heard(run: seq<Line>, n: nat): seq<Json>
    requires n <= |run|
  {
    if n == 0 then [] else if IsHeard(run, n - 1) then Heard(run, n - 1) + [run[n - 1].json] else Heard(run, n - 1)
  }

  // ----- counting -----

  function Count(notes: seq<Json>, note: Json): nat {
    if notes == [] then 0
    else Count(notes[..|notes| - 1], note) + (if notes[|notes| - 1] == note then 1 else 0)
  }

  lemma CountSnoc(notes: seq<Json>, last: Json, note: Json)
    ensures Count(notes + [last], note) == Count(notes, note) + (if last == note then 1 else 0)
  {
    assert (notes + [last])[..|notes|] == notes;
  }

  lemma {:induction false} CountIsZero(notes: seq<Json>)
    ensures (forall note :: Count(notes, note) == 0) <==> notes == []
  {
    if notes == [] {
    } else {
      assert Count(notes, notes[|notes| - 1]) > 0;
    }
  }

  ghost function ReturnedCount(returned: seq<Completed>, note: Json): nat {
    if returned == [] then 0
    else
      ReturnedCount(returned[..|returned| - 1], note) + Count(returned[|returned| - 1].notifications, note)
  }

  ghost function Pick(open: map<string, OpenExchange>): (k: string)
    requires open != map[]
    ensures k in open
  {
    EmptyMap(open);
    var k :| k in open;
    k
  }

  lemma EmptyMap(open: map<string, OpenExchange>)
    ensures (forall k :: k !in open) ==> open == map[]
  {
    if forall k :: k !in open {
      assert open == map[];
    }
  }

  ghost function OpenCount(open: map<string, OpenExchange>, note: Json): nat
    decreases |open|
  {
    if open == map[] then 0
    else
      var k := Pick(open);
      Smaller(open, k);
      Count(open[k].notifications, note) + OpenCount(open - {k}, note)
  }

  lemma Smaller(open: map<string, OpenExchange>, k: string)
    requires k in open
    ensures |open - {k}| < |open|
  {
    assert (open - {k}).Keys == open.Keys - {k};
    assert |open - {k}| == |(open - {k}).Keys| && |open| == |open.Keys|;
  }

  /** Any key can be taken out first. */
  lemma {:induction false} OpenCountWithout(open: map<string, OpenExchange>, k: string, note: Json)
    requires k in open
    ensures OpenCount(open, note) == Count(open[k].notifications, note) + OpenCount(open - {k}, note)
    decreases |open|
  {
    var p := Pick(open);
    if p == k {
    } else {
      Smaller(open, p);
      Smaller(open, k);
      OpenCountWithout(open - {p}, k, note);
      OpenCountWithout(open - {k}, p, note);
      assert open - {p} - {k} == open - {k} - {p};
    }
  }

  lemma OpenCountUpdated(open: map<string, OpenExchange>, k: string, e: OpenExchange, note: Json)
    ensures OpenCount(open[k := e], note) == Count(e.notifications, note) + OpenCount(open - {k}, note)
  {
    OpenCountWithout(open[k := e], k, note);
    assert open[k := e] - {k} == open - {k};
  }

  // ----- what a reused id throws away -----

  /** A request arrives for a key that is open and has collected notifications. */
  ghost predicate Discards(run: seq<Line>, t: nat)
    requires t < |run|
  {
    Discarded(run, t) != []
  }

  ghost function Discarded(run: seq<Line>, t: nat): seq<Json>
    requires t < |run|
  {
    DiscardedBy(StateAfter(run, t), run[t])
  }

  function DiscardedBy(s: State, line: Line): seq<Json> {
    if line.Request? && RequestIdKey(line.id) in s.open then s.open[RequestIdKey(line.id)].notifications else []
  }

  ghost function DiscardedCount(run: seq<Line>, note: Json, n: nat): nat
    requires n <= |run|
  {
    if n == 0 then 0 else DiscardedCount(run, note, n - 1) + Count(Discarded(run, n - 1), note)
  }

  // ----- every notification is accounted for -----

  lemma RequestAccount(s: State, line: Line, note: Json)
    requires line.Request?
    ensures OpenCount(Next(s, line).1.open, note) + Count(DiscardedBy(s, line), note) == OpenCount(s.open, note)
  {
    var key := RequestIdKey(line.id);
    OpenCountUpdated(s.open, key, OpenExchange(line.id, line.command, line.payload, []), note);
    if key in s.open {
      OpenCountWithout(s.open, key, note);
    } else {
      assert s.open - {key} == s.open;
    }
  }

  lemma AnswerAccount(s: State, key: string, response: Json, note: Json)
    ensures var (returned, next) := Answered(s, key, response);
      OpenCount(next.open, note) + (if returned.Some? then Count(returned.value.notifications, note) else 0)
      == OpenCount(s.open, note)
  {
    if key in s.open {
      OpenCountWithout(s.open, key, note);
    }
  }

  lemma NotificationAccount(s: State, json: Json, note: Json)
    requires KeysMatch(s)
    ensures OpenCount(Notified(s, json).open, note)
         == OpenCount(s.open, note) + (if s.openOrder != [] && json == note then 1 else 0)
  {
    if s.openOrder != [] {
      var k := s.openOrder[0];
      assert k in s.openOrder;
      var e := s.open[k];
      OpenCountUpdated(s.open, k, e.(notifications := e.notifications + [json]), note);
      OpenCountWithout(s.open, k, note);
      CountSnoc(e.notifications, json, note);
    }
  }

  lemma ReturnedCountSnoc(returned: seq<Completed>, c: Completed, note: Json)
    ensures ReturnedCount(returned + [c], note) == ReturnedCount(returned, note) + Count(c.notifications, note)
  {
    assert (returned + [c])[..|returned|] == returned;
  }

  lemma ReturnedStep(run: seq<Line>, n: nat, note: Json)
    requires 0 < n <= |run|
    ensures ReturnedCount(Returned(run, n), note)
         == ReturnedCount(Returned(run, n - 1), note) + Count(ReturnedNotes(StateAfter(run, n - 1), run[n - 1]), note)
  {
    match Next(StateAfter(run, n - 1), run[n - 1]).0
    case None =>
    case Some(c) => ReturnedCountSnoc(Returned(run, n - 1), c, note);
  }

  lemma HeardStep(run: seq<Line>, n: nat, note: Json)
    requires 0 < n <= |run|
    ensures Count(Heard(run, n), note) == Count(Heard(run, n - 1), note)
      + (if IsHeard(run, n - 1) && run[n - 1].json == note then 1 else 0)
  {
    if IsHeard(run, n - 1) {
      CountSnoc(Heard(run, n - 1), run[n - 1].json, note);
    }
  }

  /** A request is open exactly when the order is not empty. */
  lemma OrderShowsOldest(run: seq<Line>, n: nat)
    requires n <= |run|
    ensures StateAfter(run, n).openOrder != [] <==> Oldest(run, n).Some?
  {
    StateIsReference(run, n);
    if OpenList(run, n) != [] {
      FirstKey(run, OpenList(run, n));
    }
  }

  function ReturnedNotes(s: State, line: Line): seq<Json> {
    match Next(s, line).0
    case None => []
    case Some(c) => c.notifications
  }

  predicate Hears(s: State, line: Line) {
    IsNotification(line) && s.openOrder != []
  }

  /** One line's effect on the open exchanges, what it returns and what it discards. */
  lemma LineAccount(s: State, line: Line, note: Json)
    requires KeysMatch(s)
    ensures OpenCount(Next(s, line).1.open, note) + Count(DiscardedBy(s, line), note)
          + Count(ReturnedNotes(s, line), note)
         == OpenCount(s.open, note) + (if Hears(s, line) && line.json == note then 1 else 0)
  {
    if line.Request? {
      RequestAccount(s, line, note);
    } else if AnswerKey(line).Some? {
      AnswerAccount(s, AnswerKey(line).value, line.json, note);
    } else if IsNotification(line) {
      NotificationAccount(s, line.json, note);
    }
  }

  lemma OpenStepAccount(run: seq<Line>, n: nat, note: Json)
    requires 0 < n <= |run|
    ensures OpenCount(StateAfter(run, n).open, note) + Count(Discarded(run, n - 1), note)
      + Count(ReturnedNotes(StateAfter(run, n - 1), run[n - 1]), note)
      == OpenCount(StateAfter(run, n - 1).open, note)
      + (if IsHeard(run, n - 1) && run[n - 1].json == note then 1 else 0)
  {
    OrderAndMapAgree(run, n - 1);
    HearsMeaning(run, n - 1);
    LineAccount(StateAfter(run, n - 1), run[n - 1], note);
  }

  lemma HearsMeaning(run: seq<Line>, t: nat)
    requires t < |run|
    ensures Hears(StateAfter(run, t), run[t]) <==> IsHeard(run, t)
  {
    OrderShowsOldest(run, t);
    HeardMeaning(run, t);
  }

  ghost predicate Accounted(run: seq<Line>, n: nat, note: Json)
    requires n <= |run|
  {
    ReturnedCount(Returned(run, n), note) + OpenCount(StateAfter(run, n).open, note) + DiscardedCount(run, note, n)
    == Count(Heard(run, n), note)
  }

  lemma AccountStep(run: seq<Line>, n: nat, note: Json)
    requires 0 < n <= |run| && Accounted(run, n - 1, note)
    ensures Accounted(run, n, note)
  {
    OpenStepAccount(run, n, note);
    ReturnedStep(run, n, note);
    HeardStep(run, n, note);
    DiscardedStep(run, note, n);
  }

  lemma NothingYet(run: seq<Line>, note: Json)
    ensures Accounted(run, 0, note)
  {
    assert StateAfter(run, 0).open == map[];
  }

  /**
   * In every run, the notifications heard are those in the exchanges returned, those in the exchanges
   * still open, and those a reused id threw away.
   */
  lemma {:induction false} NotificationsAreAccounted(run: seq<Line>, n: nat, note: Json)
    requires n <= |run|
    ensures Accounted(run, n, note)
  {
    if n == 0 {
      NothingYet(run, note);
    } else {
      NotificationsAreAccounted(run, n - 1, note);
      AccountStep(run, n, note);
    }
  }

  // ----- exactly when none is lost -----

  /** What was heard is what was returned or is still open. */
  ghost predicate Conserved(run: seq<Line>, n: nat)
    requires n <= |run|
  {
    forall note :: IsConserved(run, n, note)
  }

  ghost predicate IsConserved(run: seq<Line>, n: nat, note: Json)
    requires n <= |run|
  {
    ReturnedCount(Returned(run, n), note) + OpenCount(StateAfter(run, n).open, note) == Count(Heard(run, n), note)
  }

  lemma {:induction false} NothingDiscarded(run: seq<Line>, note: Json, n: nat)
    requires n <= |run| && forall t :: 0 <= t < n ==> !Discards(run, t)
    ensures DiscardedCount(run, note, n) == 0
  {
    if n == 0 {
    } else {
      assert !Discards(run, n - 1);
      NothingDiscarded(run, note, n - 1);
      DiscardedStep(run, note, n);
      CountIsZero([]);
    }
  }

  lemma DiscardedStep(run: seq<Line>, note: Json, n: nat)
    requires 0 < n <= |run|
    ensures DiscardedCount(run, note, n) == DiscardedCount(run, note, n - 1) + Count(Discarded(run, n - 1), note)
  {
  }

  lemma {:induction false} DiscardedStays(run: seq<Line>, note: Json, t: nat, n: nat)
    requires t < n <= |run|
    ensures DiscardedCount(run, note, n) >= Count(Discarded(run, t), note)
  {
    DiscardedStep(run, note, n);
    if t == n - 1 {
    } else {
      DiscardedStays(run, note, t, n - 1);
    }
  }

  /** Notifications are conserved exactly when no request reuses an open id that has collected some. */
  lemma NotificationsAreConserved(run: seq<Line>, n: nat)
    requires n <= |run|
    ensures Conserved(run, n) <==> forall t :: 0 <= t < n ==> !Discards(run, t)
  {
    forall note ensures IsConserved(run, n, note) <==> DiscardedCount(run, note, n) == 0 {
      NotificationsAreAccounted(run, n, note);
    }
    if forall t :: 0 <= t < n ==> !Discards(run, t) {
      forall note ensures IsConserved(run, n, note) {
        NothingDiscarded(run, note, n);
      }
    } else {
      var t :| 0 <= t < n && Discards(run, t);
      CountIsZero(Discarded(run, t));
      var note :| Count(Discarded(run, t), note) != 0;
      DiscardedStays(run, note, t, n);
      assert !IsConserved(run, n, note);
    }
  }

  /** Distinct ids in flight are enough. */
  lemma DistinctIdsLoseNothing(run: seq<Line>, n: nat)
    requires n <= |run| && DistinctInFlight(run, n)
    ensures Conserved(run, n)
  {
    forall t | 0 <= t < n ensures !Discards(run, t) {
      StateIsReference(run, t);
      assert HoldsKey(run, t, StateAfter(run, t).open, KeyOf(run, t));
      if run[t].Request? && Current(run, t, KeyOf(run, t)).Some? {
        var i := Current(run, t, KeyOf(run, t)).value;
        CurrentMeaning(run, i, t);
      }
    }
    NotificationsAreConserved(run, n);
  }

  // ----- the smallest run that loses one -----

  /** A request, a notification, the same id again, and its answer. */
  function Reuse(id: RequestId, command: string, payload: Json, note: Json, response: Json): seq<Line> {
    [Request(id, command, payload), FromSidecar(note, None, None, true),
     Request(id, command, payload), FromSidecar(response, Some(id), None, false)]
  }

  lemma ReusedIdLosesNotifications(id: RequestId, command: string, payload: Json, note: Json, response: Json)
    ensures var run := Reuse(id, command, payload, note, response);
      Discarded(run, 2) == [note] && !Conserved(run, 4)
  {
    var run := Reuse(id, command, payload, note, response);
    var key := RequestIdKey(id);
    var start := OpenExchange(id, command, payload, []);
    assert StateAfter(run, 1) == State([key], map[key := start]);
    assert StateAfter(run, 2) == Notified(State([key], map[key := start]), note);
    assert Discards(run, 2);
    NotificationsAreConserved(run, 4);
  }
}
