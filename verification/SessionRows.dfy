/**
 * Turn rows and user rows of a folded session, read off the admitted events alone
 * (packages/contracts/src/sessionSnapshot.ts).
 */
module SessionRows {
  import opened Wrappers
  import opened SessionSnapshot
  import opened SessionTurns

  // ----- the reading -----

  predicate IsSend(e: Event, id: string) {
    e.payload.MessageSent? && e.payload.messageId == id
  }

  /** A message with this id has been sent before. */
  ghost predicate Sent(events: seq<Event>, id: string) {
    exists i :: 0 <= i < |events| && IsSend(events[i], id)
  }

  /** After `front`, `e` is the first message with its id. */
  ghost predicate Starts(front: seq<Event>, e: Event) {
    e.payload.MessageSent? && !Sent(front, e.payload.messageId)
  }

  /** The positions of the first messages, in order. */
  ghost function Started(events: seq<Event>): seq<nat> {
    if events == [] then []
    else
      var n := |events| - 1;
      Started(events[..n]) + if Starts(events[..n], events[n]) then [n] else []
  }

  /** A turn event without an id means the turn that is open, one with an id that turn. */
  predicate MeansTurn(turnId: Option<string>, id: string) {
    turnId == None || turnId == Some(id)
  }

  /** After `front`, `e` ends a running turn `id`: it completes or cancels it, or starts the next one. */
  ghost predicate Ends(front: seq<Event>, e: Event, id: string) {
    || Starts(front, e)
    || ((e.payload.TurnCompleted? || e.payload.TurnCancelled?) && MeansTurn(e.payload.turnId, id))
  }

  /** The position of the first event that ends the turn started at `i`. */
  ghost function EndOf(events: seq<Event>, i: nat, id: string): Option<nat>
    decreases |events|
  {
    if |events| <= i + 1 then None
    else
      var n := |events| - 1;
      match EndOf(events[..n], i, id)
      case Some(j) => Some(j)
      case None => if Ends(events[..n], events[n], id) then Some(n) else None
  }

  /** What `e` reports about turn `id`. */
  function ReportFor(e: Event, id: string): Option<UsageReport> {
    if e.payload.TurnUsageObserved? && MeansTurn(e.payload.turnId, id) then Some(e.payload.report) else None
  }

  /** The latest value reported for one field while the turn started at `i` was running. */
  ghost function Latest<T>(events: seq<Event>, i: nat, id: string, field: UsageReport -> Option<T>): Option<T>
    decreases |events|
  {
    if |events| <= i + 1 then None
    else
      var n := |events| - 1;
      var report := ReportFor(events[n], id);
      if EndOf(events[..n], i, id) == None && report.Some? && field(report.value).Some?
      then field(report.value)
      else Latest(events[..n], i, id, field)
  }

  function Input(r: UsageReport): Option<nat> { r.inputTokens }

  function Output(r: UsageReport): Option<nat> { r.outputTokens }

  function CacheRead(r: UsageReport): Option<nat> { r.cacheReadTokens }

  function CacheWrite(r: UsageReport): Option<nat> { r.cacheWriteTokens }

  function Cost(r: UsageReport): Option<real> { r.costUsd }

  function Window(r: UsageReport): Option<nat> { r.contextWindowSize }

  predicate IsLatest<T(==)>(value: T, latest: Option<T>, before: T) {
    value == (if latest.Some? then latest.value else before)
  }

  ghost predicate UsageIs(u: Usage, events: seq<Event>, i: nat, id: string) {
    && IsLatest(u.inputTokens, Latest(events, i, id, Input), 0)
    && IsLatest(u.outputTokens, Latest(events, i, id, Output), 0)
    && IsLatest(u.cacheReadTokens, Latest(events, i, id, CacheRead), 0)
    && IsLatest(u.cacheWriteTokens, Latest(events, i, id, CacheWrite), 0)
    && IsLatest(u.costUsd, Latest(events, i, id, Cost), 0.0)
    && u.contextWindowSize == Latest(events, i, id, Window)
  }

  /** How the turn stands: running, or ended by the event at that position. */
  ghost predicate StandsAt(t: Turn, events: seq<Event>, end: Option<nat>) {
    match end
    case None => t.status == Running && t.endedAt == None
    case Some(j) =>
      && j < |events|
      && t.status == (if events[j].payload.TurnCancelled? then Cancelled else Completed)
      && t.endedAt == Some(events[j].occurredAt)
  }

  /** The row of the turn that the message at `i` started. */
  ghost predicate IsTurnOf(t: Turn, events: seq<Event>, i: nat) {
    && i < |events| && events[i].payload.MessageSent?
    && t.turnId == events[i].payload.messageId
    && t.sessionId == events[i].payload.sessionId
    && t.sequence == events[i].sequence
    && t.startedAt == events[i].occurredAt
    && StandsAt(t, events, EndOf(events, i, t.turnId))
    && UsageIs(t.usage, events, i, t.turnId)
  }

  ghost predicate TurnsAre(turns: seq<Turn>, events: seq<Event>) {
    && |turns| == |Started(events)|
    && forall r :: 0 <= r < |turns| ==> IsTurnOf(turns[r], events, Started(events)[r])
  }

  /** The row of the message at `i`. */
  ghost predicate IsUserOf(m: Message, events: seq<Event>, i: nat) {
    && i < |events| && events[i].payload.MessageSent? && m.User?
    && m.messageId == events[i].payload.messageId
    && m.sessionId == events[i].payload.sessionId
    && m.sequence == events[i].sequence
    && m.text == events[i].payload.text
  }

  ghost function Users(messages: seq<Message>): seq<Message> {
    if messages == [] then []
    else Users(messages[..|messages| - 1])
         + if messages[|messages| - 1].User? then [messages[|messages| - 1]] else []
  }

  ghost predicate AreUsersOf(rows: seq<Message>, events: seq<Event>, at: seq<nat>) {
    |rows| == |at| && forall r :: 0 <= r < |rows| ==> IsUserOf(rows[r], events, at[r])
  }

  ghost predicate UsersAre(messages: seq<Message>, events: seq<Event>) {
    AreUsersOf(Users(messages), events, Started(events))
  }

  // ----- what the reading means -----

  /** The end is the first later event that ends the turn. */
  lemma {:induction false} EndOfMeaning(events: seq<Event>, i: nat, id: string, j: nat)
    ensures EndOf(events, i, id) == Some(j)
       <==> && i < j < |events| && Ends(events[..j], events[j], id)
            && forall k :: i < k < j ==> !Ends(events[..k], events[k], id)
    decreases |events|
  {
    if |events| <= i + 1 {
    } else {
      var n := |events| - 1;
      var front := events[..n];
      EndOfMeaning(front, i, id, j);
      assert forall k :: 0 <= k < n ==> front[..k] == events[..k] && front[k] == events[k];
      if EndOf(front, i, id) == None {
        NoEndMeaning(front, i, id);
      } else {
        EndOfMeaning(front, i, id, EndOf(front, i, id).value);
      }
    }
  }

  lemma {:induction false} NoEndMeaning(events: seq<Event>, i: nat, id: string)
    ensures EndOf(events, i, id) == None <==> forall k :: i < k < |events| ==> !Ends(events[..k], events[k], id)
    decreases |events|
  {
    if |events| <= i + 1 {
    } else {
      var n := |events| - 1;
      var front := events[..n];
      NoEndMeaning(front, i, id);
      assert forall k :: 0 <= k < n ==> front[..k] == events[..k] && front[k] == events[k];
    }
  }

  lemma SentOfSnoc(front: seq<Event>, e: Event, id: string)
    ensures Sent(front + [e], id) <==> Sent(front, id) || IsSend(e, id)
  {
    var all := front + [e];
    assert all[|front|] == e;
    if Sent(front, id) {
      var i :| 0 <= i < |front| && IsSend(front[i], id);
      assert all[i] == front[i];
    }
    if i :| 0 <= i < |all| && IsSend(all[i], id) && i < |front| {
      assert front[i] == all[i];
    }
  }

  lemma StartedOfSnoc(front: seq<Event>, e: Event)
    ensures Started(front + [e]) == Started(front) + if Starts(front, e) then [|front|] else []
  {
    assert (front + [e])[..|front|] == front;
  }

  // ----- one more event -----

  lemma EndOfSnoc(front: seq<Event>, e: Event, i: nat, id: string)
    requires i < |front|
    ensures EndOf(front + [e], i, id)
         == match EndOf(front, i, id)
            case Some(j) => Some(j)
            case None => if Ends(front, e, id) then Some(|front|) else None
  {
    assert (front + [e])[..|front|] == front;
  }

  lemma {:induction false} EndIsInside(events: seq<Event>, i: nat, id: string)
    ensures EndOf(events, i, id).Some? ==> i < EndOf(events, i, id).value < |events|
    decreases |events|
  {
    if |events| <= i + 1 {
    } else {
      EndIsInside(events[..|events| - 1], i, id);
    }
  }

  lemma LatestOfSnoc<T>(front: seq<Event>, e: Event, i: nat, id: string, field: UsageReport -> Option<T>)
    requires i < |front|
    ensures Latest(front + [e], i, id, field)
         == var report := ReportFor(e, id);
            if EndOf(front, i, id) == None && report.Some? && field(report.value).Some?
            then field(report.value) else Latest(front, i, id, field)
  {
    assert (front + [e])[..|front|] == front;
  }

  /** The usage after one more event. */
  function UsageAfter(u: Usage, running: bool, report: Option<UsageReport>): Usage {
    if running && report.Some? then WithReport(u, report.value) else u
  }

  lemma UsageStep(front: seq<Event>, e: Event, i: nat, id: string, u: Usage)
    requires i < |front| && UsageIs(u, front, i, id)
    ensures UsageIs(UsageAfter(u, EndOf(front, i, id) == None, ReportFor(e, id)), front + [e], i, id)
  {
    LatestOfSnoc(front, e, i, id, Input);
    LatestOfSnoc(front, e, i, id, Output);
    LatestOfSnoc(front, e, i, id, CacheRead);
    LatestOfSnoc(front, e, i, id, CacheWrite);
    LatestOfSnoc(front, e, i, id, Cost);
    LatestOfSnoc(front, e, i, id, Window);
  }

  lemma OpenMeansRunning(t: Turn, events: seq<Event>, i: nat)
    requires IsTurnOf(t, events, i)
    ensures IsOpen(t) <==> EndOf(events, i, t.turnId) == None
  {
  }

  /** A row after one more event: what ends it and what it is told, if it was running. */
  ghost predicate Followed(t: Turn, later: Turn, front: seq<Event>, e: Event) {
    && later.turnId == t.turnId && later.sessionId == t.sessionId && later.sequence == t.sequence
    && later.startedAt == t.startedAt
    && later.usage == UsageAfter(t.usage, IsOpen(t), ReportFor(e, t.turnId))
    && later.status == (if !IsOpen(t) || !Ends(front, e, t.turnId) then t.status
                        else if e.payload.TurnCancelled? then Cancelled else Completed)
    && later.endedAt == (if IsOpen(t) && Ends(front, e, t.turnId) then Some(e.occurredAt) else t.endedAt)
  }

  lemma RowFollows(t: Turn, later: Turn, front: seq<Event>, e: Event, i: nat)
    requires IsTurnOf(t, front, i) && Followed(t, later, front, e)
    ensures IsTurnOf(later, front + [e], i)
  {
    OpenMeansRunning(t, front, i);
    EndIsInside(front, i, t.turnId);
    EndOfSnoc(front, e, i, t.turnId);
    UsageStep(front, e, i, t.turnId, t.usage);
    assert (front + [e])[i] == front[i] && (front + [e])[|front|] == e;
  }

  lemma NewRow(t: Turn, front: seq<Event>, e: Event)
    requires e.payload.MessageSent?
    requires t == Turn(e.payload.messageId, e.payload.sessionId, e.sequence, Running, e.occurredAt, None,
                       Usage(0, 0, 0, 0, 0.0, None))
    ensures IsTurnOf(t, front + [e], |front|)
  {
    assert (front + [e])[|front|] == e;
  }

  ghost predicate AllFollowed(turns: seq<Turn>, later: seq<Turn>, front: seq<Event>, e: Event) {
    && |turns| <= |later|
    && forall r :: 0 <= r < |turns| ==> Followed(turns[r], later[r], front, e)
  }

  lemma OldRowsFollow(turns: seq<Turn>, later: seq<Turn>, front: seq<Event>, e: Event)
    requires TurnsAre(turns, front) && AllFollowed(turns, later, front, e)
    ensures forall r :: 0 <= r < |turns| ==> IsTurnOf(later[r], front + [e], Started(front)[r])
  {
    forall r | 0 <= r < |turns| ensures IsTurnOf(later[r], front + [e], Started(front)[r]) {
      RowFollows(turns[r], later[r], front, e, Started(front)[r]);
    }
  }

  /** The turns there are and the messages sent have the same ids. */
  ghost predicate SameIds(turns: seq<Turn>, events: seq<Event>) {
    forall id :: HasTurn(turns, id) <==> Sent(events, id)
  }

  lemma NoStartFollows(turns: seq<Turn>, front: seq<Event>, e: Event)
    requires Distinct(TurnIds(turns)) && OnlyLastOpen(turns) && SameIds(turns, front) && !Starts(front, e)
    ensures |TurnsAfter(turns, e)| == |turns| && AllFollowed(turns, TurnsAfter(turns, e), front, e)
  {
    match e.payload
    case TurnCompleted(_, _) => CompletionFollows(turns, front, e);
    case TurnCancelled(_, _) => CancellationFollows(turns, front, e);
    case TurnUsageObserved(_, _, _) => UsageFollows(turns, front, e);
    case _ =>
  }

  lemma CompletionFollows(turns: seq<Turn>, front: seq<Event>, e: Event)
    requires Distinct(TurnIds(turns)) && OnlyLastOpen(turns) && e.payload.TurnCompleted?
    ensures |TurnsAfter(turns, e)| == |turns| && AllFollowed(turns, TurnsAfter(turns, e), front, e)
  {
    CloseMeaning(turns, e.payload.turnId, Completed, e.occurredAt);
  }

  lemma CancellationFollows(turns: seq<Turn>, front: seq<Event>, e: Event)
    requires Distinct(TurnIds(turns)) && OnlyLastOpen(turns) && e.payload.TurnCancelled?
    ensures |TurnsAfter(turns, e)| == |turns| && AllFollowed(turns, TurnsAfter(turns, e), front, e)
  {
    CloseMeaning(turns, e.payload.turnId, Cancelled, e.occurredAt);
  }

  lemma UsageFollows(turns: seq<Turn>, front: seq<Event>, e: Event)
    requires Distinct(TurnIds(turns)) && OnlyLastOpen(turns) && e.payload.TurnUsageObserved?
    ensures |TurnsAfter(turns, e)| == |turns| && AllFollowed(turns, TurnsAfter(turns, e), front, e)
  {
    ObserveMeaning(turns, e.payload.turnId, e.payload.report);
  }

  lemma StartFollows(turns: seq<Turn>, front: seq<Event>, e: Event)
    requires SameIds(turns, front) && Starts(front, e)
    ensures |TurnsAfter(turns, e)| == |turns| + 1 && AllFollowed(turns, TurnsAfter(turns, e), front, e)
    ensures IsTurnOf(TurnsAfter(turns, e)[|turns|], front + [e], |front|)
  {
    NewRow(TurnsAfter(turns, e)[|turns|], front, e);
    forall r | 0 <= r < |turns| ensures Followed(turns[r], TurnsAfter(turns, e)[r], front, e) {
      CloseAllAt(turns, e.occurredAt, r);
    }
  }

  lemma TurnsStep(turns: seq<Turn>, front: seq<Event>, e: Event)
    requires Distinct(TurnIds(turns)) && OnlyLastOpen(turns) && SameIds(turns, front) && TurnsAre(turns, front)
    ensures TurnsAre(TurnsAfter(turns, e), front + [e])
  {
    StartedOfSnoc(front, e);
    if Starts(front, e) {
      StartFollows(turns, front, e);
    } else {
      NoStartFollows(turns, front, e);
      assert Started(front) + [] == Started(front);
    }
    OldRowsFollow(turns, TurnsAfter(turns, e), front, e);
  }

  lemma IdsStep(turns: seq<Turn>, front: seq<Event>, e: Event)
    requires Distinct(TurnIds(turns)) && OnlyLastOpen(turns) && SameIds(turns, front)
    ensures SameIds(TurnsAfter(turns, e), front + [e])
  {
    if Starts(front, e) {
      StartFollows(turns, front, e);
    } else {
      NoStartFollows(turns, front, e);
    }
    forall id ensures HasTurn(TurnsAfter(turns, e), id) <==> Sent(front + [e], id) {
      SentOfSnoc(front, e, id);
      IdsOf(turns, TurnsAfter(turns, e), front, e, id);
    }
  }

  lemma IdsOf(turns: seq<Turn>, later: seq<Turn>, front: seq<Event>, e: Event, id: string)
    requires AllFollowed(turns, later, front, e) && |later| <= |turns| + 1
    ensures HasTurn(later, id) <==> HasTurn(turns, id) || (|later| > |turns| && later[|turns|].turnId == id)
  {
    assert forall r :: 0 <= r < |turns| ==> later[r].turnId == turns[r].turnId;
    if HasTurn(turns, id) {
      var r :| 0 <= r < |turns| && turns[r].turnId == id;
      assert later[r].turnId == id;
    }
    if HasTurn(later, id) {
      var r :| 0 <= r < |later| && later[r].turnId == id;
      assert r < |turns| ==> turns[r].turnId == id;
    }
  }

  // ----- user rows -----

  lemma UsersOfSnoc(messages: seq<Message>, m: Message)
    ensures Users(messages + [m]) == Users(messages) + if m.User? then [m] else []
  {
    assert (messages + [m])[..|messages|] == messages;
  }

  lemma {:induction false} SameUserRows(a: seq<Message>, b: seq<Message>)
    requires |a| == |b|
    requires forall i :: 0 <= i < |a| ==> (a[i].User? ==> b[i] == a[i]) && (a[i].Assistant? ==> b[i].Assistant?)
    ensures Users(a) == Users(b)
  {
    if a == [] {
    } else {
      SameUserRows(a[..|a| - 1], b[..|b| - 1]);
    }
  }

  lemma AssistantKeepsUsers(messages: seq<Message>, e: Event)
    requires !e.payload.MessageSent?
    ensures Users(MessagesAfter(messages, e)) == Users(messages)
  {
    if e.payload.TokenAppended? || e.payload.ThoughtAppended? {
      var id, token := e.payload.messageId, e.payload.token;
      var kind := if e.payload.TokenAppended? then Text else Thought;
      if HasAssistant(messages, id) {
        GrowKeepsRows(messages, id, kind, token);
        SameUserRows(messages, GrowAssistant(messages, id, kind, token));
      } else {
        UsersOfSnoc(messages, Assistant(e.payload.sessionId, e.sequence, id, [Part(kind, token)]));
      }
    }
  }

  ghost predicate SameUserIds(messages: seq<Message>, events: seq<Event>) {
    forall id :: HasUser(messages, id) <==> Sent(events, id)
  }

  /** The user rows after one more event. */
  lemma UsersAfter(messages: seq<Message>, front: seq<Event>, e: Event)
    requires SameUserIds(messages, front)
    ensures Users(MessagesAfter(messages, e))
         == Users(messages)
            + if Starts(front, e)
              then [User(e.payload.sessionId, e.sequence, e.payload.messageId, e.payload.text)] else []
  {
    if Starts(front, e) {
      UsersOfSnoc(messages, User(e.payload.sessionId, e.sequence, e.payload.messageId, e.payload.text));
    } else {
      if !e.payload.MessageSent? {
        AssistantKeepsUsers(messages, e);
      }
      assert Users(messages) + [] == Users(messages);
    }
  }

  lemma UserStays(m: Message, front: seq<Event>, e: Event, i: nat)
    requires IsUserOf(m, front, i)
    ensures IsUserOf(m, front + [e], i)
  {
    assert (front + [e])[i] == front[i];
  }

  lemma UsersStay(rows: seq<Message>, front: seq<Event>, e: Event, at: seq<nat>)
    requires AreUsersOf(rows, front, at)
    ensures AreUsersOf(rows, front + [e], at)
  {
    forall r | 0 <= r < |rows| ensures IsUserOf(rows[r], front + [e], at[r]) {
      UserStays(rows[r], front, e, at[r]);
    }
  }

  lemma OneMoreUser(rows: seq<Message>, events: seq<Event>, at: seq<nat>, m: Message, i: nat)
    requires AreUsersOf(rows, events, at) && IsUserOf(m, events, i)
    ensures AreUsersOf(rows + [m], events, at + [i])
  {
  }

  lemma UsersStep(messages: seq<Message>, front: seq<Event>, e: Event)
    requires SameUserIds(messages, front) && UsersAre(messages, front)
    ensures UsersAre(MessagesAfter(messages, e), front + [e])
  {
    StartedOfSnoc(front, e);
    UsersAfter(messages, front, e);
    UsersStay(Users(messages), front, e, Started(front));
    if Starts(front, e) {
      assert (front + [e])[|front|] == e;
      OneMoreUser(Users(messages), front + [e], Started(front),
                  User(e.payload.sessionId, e.sequence, e.payload.messageId, e.payload.text), |front|);
    } else {
      assert Users(messages) + [] == Users(messages) && Started(front) + [] == Started(front);
    }
  }

  // ----- runs -----

  ghost predicate RowsAre(s: Snapshot, events: seq<Event>) {
    && TurnsAre(s.turns, events) && UsersAre(s.messages, events)
    && SameIds(s.turns, events)
  }

  lemma TurnsAndUsersAgree(s: Snapshot, events: seq<Event>)
    requires TurnsOk(s) && SameIds(s.turns, events)
    ensures SameUserIds(s.messages, events)
  {
    forall id ensures HasUser(s.messages, id) <==> Sent(events, id) {
      UserIdsMember(s.messages, id);
      TurnIdsMember(s.turns, id);
    }
  }

  lemma {:induction false} RunRowsAre(from: nat, events: seq<Event>)
    ensures RowsAre(Fold(Empty(from), events), Admitted(from, None, events))
  {
    if events == [] {
    } else {
      var front, e := events[..|events| - 1], events[|events| - 1];
      RunRowsAre(from, front);
      RunRowsStep(from, front, e);
      assert events == front + [e];
    }
  }

  lemma RunRowsStep(from: nat, front: seq<Event>, e: Event)
    requires RowsAre(Fold(Empty(from), front), Admitted(from, None, front))
    ensures RowsAre(Fold(Empty(from), front + [e]), Admitted(from, None, front + [e]))
  {
    var s, taken := Fold(Empty(from), front), Admitted(from, None, front);
    TurnsMirrorMessages(from, front);
    FoldStep(Empty(from), front, e);
    AdmittedStep(from, None, front, e);
    if Admits(from, None, front, e) {
      TurnsAndUsersAgree(s, taken);
      TurnsStep(s.turns, taken, e);
      IdsStep(s.turns, taken, e);
      UsersStep(s.messages, taken, e);
    } else {
      assert taken + [] == taken;
    }
  }

  /**
   * In every run the turns are, in order, those of the first messages with their ids: session, sequence and
   * start from the message, status and end from the first later event that ends the turn, and each usage
   * field the latest value reported for it while the turn ran.
   */
  lemma TurnsMeaning(from: nat, events: seq<Event>)
    ensures TurnsAre(Fold(Empty(from), events).turns, Admitted(from, None, events))
  {
    RunRowsAre(from, events);
  }

  /** In every run the user rows are those of the same messages, in the same order. */
  lemma UsersMeaning(from: nat, events: seq<Event>)
    ensures UsersAre(Fold(Empty(from), events).messages, Admitted(from, None, events))
  {
    RunRowsAre(from, events);
  }
}
