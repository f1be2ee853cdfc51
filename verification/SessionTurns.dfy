/** The turn lifecycle of a folded session (packages/contracts/src/sessionSnapshot.ts). */
module SessionTurns {
  import opened Wrappers
  import opened SessionSnapshot

  ghost function UserIds(messages: seq<Message>): seq<string> {
    if messages == [] then []
    else
      UserIds(messages[..|messages| - 1])
      + if messages[|messages| - 1].User? then [messages[|messages| - 1].messageId] else []
  }

  ghost function TurnIds(turns: seq<Turn>): seq<string> {
    seq(|turns|, i requires 0 <= i < |turns| => turns[i].turnId)
  }

  ghost predicate Distinct(ids: seq<string>) {
    forall i, j :: 0 <= i < j < |ids| ==> ids[i] != ids[j]
  }

  ghost predicate OnlyLastOpen(turns: seq<Turn>) {
    forall i :: 0 <= i < |turns| - 1 ==> !IsOpen(turns[i])
  }

  /** Turn ids are the user message ids in order, all distinct, and only the last turn can be open. */
  ghost predicate TurnsOk(s: Snapshot) {
    && TurnIds(s.turns) == UserIds(s.messages)
    && Distinct(TurnIds(s.turns))
    && OnlyLastOpen(s.turns)
  }

  /** `later` extends `turns`, keeps every identity, and does not touch a closed turn. */
  ghost predicate Extends(turns: seq<Turn>, later: seq<Turn>) {
    && |turns| <= |later|
    && forall i :: 0 <= i < |turns| ==>
         && later[i].turnId == turns[i].turnId
         && later[i].sequence == turns[i].sequence
         && later[i].startedAt == turns[i].startedAt
         && (!IsOpen(turns[i]) ==> later[i] == turns[i])
  }

  lemma ExtendsIsTransitive(a: seq<Turn>, b: seq<Turn>, c: seq<Turn>)
    requires Extends(a, b) && Extends(b, c)
    ensures Extends(a, c)
  {
  }

  // ----- the helpers of the turn branches -----

  lemma {:induction false} CloseAllAt(turns: seq<Turn>, endedAt: string, i: nat)
    requires i < |turns|
    ensures CloseAll(turns, endedAt)[i]
         == if IsOpen(turns[i]) then turns[i].(status := Completed, endedAt := Some(endedAt)) else turns[i]
  {
    if i == 0 {
    } else {
      CloseAllAt(turns[1..], endedAt, i - 1);
    }
  }

  lemma {:induction false} ReplaceEveryAt(turns: seq<Turn>, next: Turn)
    ensures |ReplaceEvery(turns, next)| == |turns|
    ensures forall i :: 0 <= i < |turns| ==>
              ReplaceEvery(turns, next)[i] == if turns[i].turnId == next.turnId then next else turns[i]
  {
    if turns == [] {
    } else {
      ReplaceEveryAt(turns[1..], next);
    }
  }

  /** What is found is open, is in the list, and has the id asked for. */
  lemma {:induction false} TargetIsOpen(turns: seq<Turn>, turnId: Option<string>) returns (i: nat)
    requires FindTarget(turns, turnId).Some?
    ensures i < |turns| && turns[i] == FindTarget(turns, turnId).value && IsOpen(turns[i])
    ensures turnId.Some? ==> turns[i].turnId == turnId.value
  {
    match turnId
    case Some(id) =>
      if turns[0].turnId == id && IsOpen(turns[0]) {
        i := 0;
      } else {
        i := TargetIsOpen(turns[1..], turnId);
        i := i + 1;
      }
    case None =>
      if IsOpen(turns[|turns| - 1]) {
        i := |turns| - 1;
      } else {
        i := TargetIsOpen(turns[..|turns| - 1], turnId);
      }
  }

  lemma {:induction false} NoTargetMeansClosed(turns: seq<Turn>, turnId: Option<string>)
    ensures FindTarget(turns, turnId) == None <==>
            forall i :: 0 <= i < |turns| && (turnId == None || turnId == Some(turns[i].turnId)) ==> !IsOpen(turns[i])
  {
    if turns == [] {
    } else {
      if turnId.Some? {
        NoTargetMeansClosed(turns[1..], turnId);
        assert turns == [turns[0]] + turns[1..];
      } else {
        NoTargetMeansClosed(turns[..|turns| - 1], turnId);
        assert turns == turns[..|turns| - 1] + [turns[|turns| - 1]];
      }
    }
  }

  /** Rewriting the open target touches that one turn only. */
  lemma ReplacedTarget(turns: seq<Turn>, i: nat, next: Turn)
    requires i < |turns| && Distinct(TurnIds(turns)) && OnlyLastOpen(turns) && IsOpen(turns[i])
    requires next.turnId == turns[i].turnId && next.sequence == turns[i].sequence
          && next.startedAt == turns[i].startedAt
    ensures ReplaceTurn(turns, next) == turns[i := next]
    ensures Extends(turns, turns[i := next]) && OnlyLastOpen(turns[i := next])
    ensures TurnIds(turns[i := next]) == TurnIds(turns)
  {
    assert HasTurn(turns, next.turnId);
    ReplaceEveryAt(turns, next);
    forall j | 0 <= j < |turns| && j != i ensures turns[j].turnId != next.turnId {
      assert TurnIds(turns)[j] == turns[j].turnId && TurnIds(turns)[i] == turns[i].turnId;
    }
    assert ReplaceEvery(turns, next) == turns[i := next];
  }

  /** A closing event closes exactly the open turn it can mean, with its status and time. */
  lemma CloseMeaning(turns: seq<Turn>, turnId: Option<string>, status: TurnStatus, endedAt: string)
    requires Distinct(TurnIds(turns)) && OnlyLastOpen(turns)
    ensures |Close(turns, turnId, status, endedAt)| == |turns|
    ensures forall i :: 0 <= i < |turns| ==>
              Close(turns, turnId, status, endedAt)[i]
              == if IsOpen(turns[i]) && (turnId == None || turnId == Some(turns[i].turnId))
                 then turns[i].(status := status, endedAt := Some(endedAt)) else turns[i]
  {
    NoTargetMeansClosed(turns, turnId);
    if FindTarget(turns, turnId).Some? {
      var i := TargetIsOpen(turns, turnId);
      ReplacedTarget(turns, i, turns[i].(status := status, endedAt := Some(endedAt)));
    }
  }

  /** A usage report reaches exactly the open turn it can mean, and overwrites only the fields it carries. */
  lemma ObserveMeaning(turns: seq<Turn>, turnId: Option<string>, report: UsageReport)
    requires Distinct(TurnIds(turns)) && OnlyLastOpen(turns)
    ensures |Observe(turns, turnId, report)| == |turns|
    ensures forall i :: 0 <= i < |turns| ==>
              Observe(turns, turnId, report)[i]
              == if IsOpen(turns[i]) && (turnId == None || turnId == Some(turns[i].turnId))
                 then turns[i].(usage := WithReport(turns[i].usage, report)) else turns[i]
  {
    NoTargetMeansClosed(turns, turnId);
    if FindTarget(turns, turnId).Some? {
      var i := TargetIsOpen(turns, turnId);
      ReplacedTarget(turns, i, turns[i].(usage := WithReport(turns[i].usage, report)));
    }
  }

  lemma NewTurn(turns: seq<Turn>, turn: Turn, endedAt: string)
    requires Distinct(TurnIds(turns)) && !HasTurn(turns, turn.turnId)
    ensures var later := CloseAll(turns, endedAt) + [turn];
            && TurnIds(later) == TurnIds(turns) + [turn.turnId]
            && Distinct(TurnIds(later)) && OnlyLastOpen(later) && Extends(turns, later)
  {
    forall i | 0 <= i < |turns|
      ensures CloseAll(turns, endedAt)[i]
           == if IsOpen(turns[i]) then turns[i].(status := Completed, endedAt := Some(endedAt)) else turns[i]
    {
      CloseAllAt(turns, endedAt, i);
    }
    var later := CloseAll(turns, endedAt) + [turn];
    assert TurnIds(later) == TurnIds(turns) + [turn.turnId];
    forall i | 0 <= i < |turns| ensures TurnIds(turns)[i] != turn.turnId {
      assert turns[i].turnId != turn.turnId;
    }
  }

  // ----- messages and turns move together -----

  lemma {:induction false} UserIdsMember(messages: seq<Message>, messageId: string)
    ensures messageId in UserIds(messages) <==> HasUser(messages, messageId)
  {
    if messages == [] {
    } else {
      var n := |messages| - 1;
      UserIdsMember(messages[..n], messageId);
      assert HasUser(messages, messageId) <==>
             HasUser(messages[..n], messageId) || (messages[n].User? && messages[n].messageId == messageId) by {
        assert messages == messages[..n] + [messages[n]];
        forall i | 0 <= i < n ensures messages[..n][i] == messages[i] {
        }
      }
    }
  }

  lemma TurnIdsMember(turns: seq<Turn>, turnId: string)
    ensures turnId in TurnIds(turns) <==> HasTurn(turns, turnId)
  {
    if HasTurn(turns, turnId) {
      var i :| 0 <= i < |turns| && turns[i].turnId == turnId;
      assert TurnIds(turns)[i] == turnId;
    }
  }

  lemma UserIdsOfSnoc(messages: seq<Message>, m: Message)
    ensures UserIds(messages + [m]) == UserIds(messages) + if m.User? then [m.messageId] else []
  {
    assert (messages + [m])[..|messages|] == messages;
  }

  lemma {:induction false} ReplaceAssistantRows(messages: seq<Message>, updated: Message)
    requires updated.Assistant?
    ensures |ReplaceAssistant(messages, updated)| == |messages|
    ensures forall i :: 0 <= i < |messages| ==>
              var r := ReplaceAssistant(messages, updated)[i];
              if messages[i].Assistant? && messages[i].messageId == updated.messageId
              then r == updated else r == messages[i]
  {
    if messages == [] {
    } else {
      ReplaceAssistantRows(messages[1..], updated);
    }
  }

  lemma {:induction false} GrowKeepsRows(messages: seq<Message>, messageId: string, kind: PartKind, token: string)
    ensures |GrowAssistant(messages, messageId, kind, token)| == |messages|
    ensures forall i :: 0 <= i < |messages| ==>
              var r := GrowAssistant(messages, messageId, kind, token)[i];
              if messages[i].Assistant? && messages[i].messageId == messageId
              then r.Assistant? && r.messageId == messageId else r == messages[i]
  {
    if messages == [] {
    } else {
      if messages[0].Assistant? && messages[0].messageId == messageId {
        ReplaceAssistantRows(messages[1..], messages[0].(parts := AppendPart(messages[0].parts, kind, token)));
      } else {
        GrowKeepsRows(messages[1..], messageId, kind, token);
      }
    }
  }

  lemma {:induction false} SameUsers(a: seq<Message>, b: seq<Message>)
    requires |a| == |b|
    requires forall i :: 0 <= i < |a| ==> (a[i].User? ==> b[i] == a[i]) && (a[i].Assistant? ==> b[i].Assistant?)
    ensures UserIds(a) == UserIds(b)
  {
    if a == [] {
    } else {
      SameUsers(a[..|a| - 1], b[..|b| - 1]);
    }
  }

  lemma AssistantKeepsUserIds(messages: seq<Message>, e: Event)
    requires !e.payload.MessageSent?
    ensures UserIds(MessagesAfter(messages, e)) == UserIds(messages)
  {
    if e.payload.TokenAppended? || e.payload.ThoughtAppended? {
      var id, token := e.payload.messageId, e.payload.token;
      var kind := if e.payload.TokenAppended? then Text else Thought;
      if HasAssistant(messages, id) {
        GrowKeepsRows(messages, id, kind, token);
        SameUsers(messages, GrowAssistant(messages, id, kind, token));
      } else {
        UserIdsOfSnoc(messages, Assistant(e.payload.sessionId, e.sequence, id, [Part(kind, token)]));
      }
    }
  }

  // ----- one event -----

  lemma MessageStep(s: Snapshot, e: Event)
    requires TurnsOk(s) && e.payload.MessageSent?
    ensures TurnsOk(Effect(s, e)) && Extends(s.turns, Effect(s, e).turns)
  {
    var id := e.payload.messageId;
    UserIdsMember(s.messages, id);
    TurnIdsMember(s.turns, id);
    if !HasTurn(s.turns, id) {
      UserIdsOfSnoc(s.messages, User(e.payload.sessionId, e.sequence, id, e.payload.text));
      NewTurn(s.turns, StartTurn(id, e.payload.sessionId, e.sequence, e.occurredAt), e.occurredAt);
    }
  }

  lemma TargetStep(turns: seq<Turn>, e: Event)
    requires Distinct(TurnIds(turns)) && OnlyLastOpen(turns) && !e.payload.MessageSent?
    ensures var later := TurnsAfter(turns, e);
            && TurnIds(later) == TurnIds(turns) && OnlyLastOpen(later) && Extends(turns, later)
  {
    if e.payload.TurnCompleted? || e.payload.TurnCancelled? || e.payload.TurnUsageObserved? {
      var target := FindTarget(turns, e.payload.turnId);
      if target.Some? {
        var i := TargetIsOpen(turns, e.payload.turnId);
        var next := match e.payload
          case TurnCompleted(_, _) => turns[i].(status := Completed, endedAt := Some(e.occurredAt))
          case TurnCancelled(_, _) => turns[i].(status := Cancelled, endedAt := Some(e.occurredAt))
          case TurnUsageObserved(_, _, report) => turns[i].(usage := WithReport(turns[i].usage, report));
        ReplacedTarget(turns, i, next);
      }
    }
  }

  lemma EffectStep(s: Snapshot, e: Event)
    requires TurnsOk(s)
    ensures TurnsOk(Effect(s, e)) && Extends(s.turns, Effect(s, e).turns)
  {
    if e.payload.MessageSent? {
      MessageStep(s, e);
    } else {
      AssistantKeepsUserIds(s.messages, e);
      TargetStep(s.turns, e);
    }
  }

  lemma ApplyKeepsTurns(s: Snapshot, e: Event)
    requires TurnsOk(s)
    ensures TurnsOk(Apply(s, e)) && Extends(s.turns, Apply(s, e).turns)
  {
    ApplyStep(s, e);
    if Takes(s, e) {
      EffectStep(s, e);
    }
  }

  // ----- runs -----

  /**
   * From the empty snapshot, whatever events arrive: turn ids are distinct and equal the user
   * message ids in order, and at most one turn is open, the last.
   */
  lemma {:induction false} TurnsMirrorMessages(from: nat, events: seq<Event>)
    ensures TurnsOk(Fold(Empty(from), events))
  {
    if events == [] {
    } else {
      TurnsMirrorMessages(from, events[..|events| - 1]);
      ApplyKeepsTurns(Fold(Empty(from), events[..|events| - 1]), events[|events| - 1]);
    }
  }

  lemma {:induction false} LaterEventsExtend(s: Snapshot, events: seq<Event>)
    requires TurnsOk(s)
    ensures TurnsOk(Fold(s, events)) && Extends(s.turns, Fold(s, events).turns)
  {
    if events == [] {
    } else {
      var front := Fold(s, events[..|events| - 1]);
      LaterEventsExtend(s, events[..|events| - 1]);
      ApplyKeepsTurns(front, events[|events| - 1]);
      ExtendsIsTransitive(s.turns, front.turns, Fold(s, events).turns);
    }
  }

  /** Once a turn is closed, no later event changes any of its fields. */
  lemma ClosedTurnsAreFinal(from: nat, events: seq<Event>, later: seq<Event>, i: nat)
    requires i < |Fold(Empty(from), events).turns| && !IsOpen(Fold(Empty(from), events).turns[i])
    ensures i < |Fold(Empty(from), events + later).turns|
    ensures Fold(Empty(from), events + later).turns[i] == Fold(Empty(from), events).turns[i]
  {
    TurnsMirrorMessages(from, events);
    FoldOfAppend(Empty(from), events, later);
    LaterEventsExtend(Fold(Empty(from), events), later);
  }
}
