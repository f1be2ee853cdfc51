/**
 * The event fold behind a session snapshot (packages/contracts/src/sessionSnapshot.ts and
 * packages/contracts/src/assistantMessageContent.ts), and what holds of whole folds.
 */
module SessionSnapshot {
  import opened Wrappers
  import opened StableSort

  // ----- rows -----

  datatype Session = Session(
    sessionId: string,
    projectId: string,
    title: string,
    provider: Option<string>,
    createdAt: string,
    updatedAt: string,
    lastActivityAt: string,
    prNumber: Option<nat>,
    prLinkMode: Option<string>,
    providerSessionId: Option<string>,
    providerSessionFailed: bool,
    currentModeId: Option<string>,
    currentModelId: Option<string>,
    availableModels: Option<seq<string>>,
    configOptions: Option<map<string, string>>)

  datatype PartKind = Text | Thought

  datatype Part = Part(kind: PartKind, text: string)

  datatype Message =
    | User(sessionId: string, sequence: nat, messageId: string, text: string)
    | Assistant(sessionId: string, sequence: nat, messageId: string, parts: seq<Part>)

  datatype TurnStatus = Running | Completed | Cancelled

  datatype Usage = Usage(
    inputTokens: nat,
    outputTokens: nat,
    cacheReadTokens: nat,
    cacheWriteTokens: nat,
    costUsd: real,
    contextWindowSize: Option<nat>)

  /** A usage report names only the fields it carries. */
  datatype UsageReport = UsageReport(
    inputTokens: Option<nat>,
    outputTokens: Option<nat>,
    cacheReadTokens: Option<nat>,
    cacheWriteTokens: Option<nat>,
    costUsd: Option<real>,
    contextWindowSize: Option<nat>)

  datatype Turn = Turn(
    turnId: string,
    sessionId: string,
    sequence: nat,
    status: TurnStatus,
    startedAt: string,
    endedAt: Option<string>,
    usage: Usage)

  datatype Activity = Activity(
    activityId: string,
    sessionId: string,
    sequence: nat,
    status: string,
    title: string,
    path: Option<string>,
    toolCallId: string,
    output: Option<string>)

  datatype Approval = Approval(approvalRequestId: string, sessionId: string, sequence: nat, title: string)

  datatype CheckpointStatus = Ready | Missing | Failed

  datatype Checkpoint = Checkpoint(
    checkpointId: string,
    sessionId: string,
    sequence: nat,
    checkpointNumber: nat,
    name: Option<string>,
    isAuto: bool,
    toolCallId: Option<string>,
    fileCount: nat,
    status: CheckpointStatus,
    createdAt: string,
    lastRevertedAt: Option<string>)

  datatype Snapshot = Snapshot(
    snapshotSequence: nat,
    session: Option<Session>,
    messages: seq<Message>,
    turns: seq<Turn>,
    activities: seq<Activity>,
    pendingApprovals: seq<Approval>,
    checkpoints: seq<Checkpoint>)

  // ----- events -----

  datatype Payload =
    | SessionCreated(sessionId: string, projectId: string, title: string, providerId: Option<string>)
    | SessionMetaUpdated(
        sessionId: string, newTitle: Option<string>, prNumber: Option<Option<nat>>,
        prLinkMode: Option<Option<string>>, providerSessionId: Option<string>, models: Option<seq<string>>)
    | SessionModeSet(sessionId: string, modeId: string)
    | SessionModelSet(sessionId: string, modelId: string)
    | SessionConfigOptionSet(sessionId: string, key: string, value: string)
    | ProviderSessionFailed(sessionId: string)
    | MessageSent(sessionId: string, messageId: string, text: string)
    | TokenAppended(sessionId: string, messageId: string, token: string)
    | ThoughtAppended(sessionId: string, messageId: string, token: string)
    | TurnCompleted(sessionId: string, turnId: Option<string>)
    | TurnCancelled(sessionId: string, turnId: Option<string>)
    | TurnUsageObserved(sessionId: string, turnId: Option<string>, report: UsageReport)
    | CheckpointCreated(
        sessionId: string, checkpointId: string, checkpointNumber: nat, name: Option<string>,
        isAuto: bool, checkpointToolCallId: Option<string>, fileCount: nat)
    | CheckpointReadinessChanged(sessionId: string, checkpointId: string, status: CheckpointStatus)
    | CheckpointReverted(sessionId: string, checkpointId: string)
    | ToolCallObserved(
        sessionId: string, activityId: string, activityStatus: string, title: string,
        path: Option<string>, toolCallId: string, output: Option<string>)
    | ApprovalRequested(sessionId: string, approvalRequestId: string, title: string)
    | InteractionReplied(sessionId: string, approvalRequestId: string)
    /** Any event the fold only counts. */
    | Other

  datatype Event = Event(sequence: nat, occurredAt: string, payload: Payload)

  function SessionOf(payload: Payload): Option<string> {
    if payload.Other? then None else Some(payload.sessionId)
  }

  // ----- the code -----

  function Empty(snapshotSequence: nat): Snapshot {
    Snapshot(snapshotSequence, None, [], [], [], [], [])
  }

  function Watermark(s: Snapshot, sequence: nat): nat {
    if sequence > s.snapshotSequence then sequence else s.snapshotSequence
  }

  function WithSequence(s: Snapshot, sequence: nat): Snapshot {
    s.(snapshotSequence := Watermark(s, sequence))
  }

  predicate IsThisSession(s: Snapshot, sessionId: string) {
    s.session == None || s.session.value.sessionId == sessionId
  }

  function Touch(session: Option<Session>, occurredAt: string): Option<Session> {
    match session
    case None => None
    case Some(current) => Some(current.(updatedAt := occurredAt, lastActivityAt := occurredAt))
  }

  function OrElse<T>(value: Option<T>, fallback: T): T {
    match value
    case Some(v) => v
    case None => fallback
  }

  /** The branches that only rewrite the session record. */
  function SessionAfter(session: Option<Session>, e: Event): Option<Session> {
    match e.payload
    case SessionCreated(sessionId, projectId, title, providerId) =>
      Some(Session(
        sessionId, projectId, title, providerId, e.occurredAt, e.occurredAt, e.occurredAt,
        None, None, None, false, None, None, None, None))
    case SessionMetaUpdated(_, newTitle, prNumber, prLinkMode, providerSessionId, models) =>
      (match Touch(session, e.occurredAt)
       case None => None
       case Some(c) =>
         Some(c.(title := OrElse(newTitle, c.title),
                 prNumber := OrElse(prNumber, c.prNumber),
                 prLinkMode := OrElse(prLinkMode, c.prLinkMode),
                 providerSessionId := if providerSessionId.Some? then providerSessionId else c.providerSessionId,
                 availableModels := if models.Some? then models else c.availableModels)))
    case SessionModeSet(_, modeId) =>
      (match Touch(session, e.occurredAt)
       case None => None
       case Some(c) => Some(c.(currentModeId := Some(modeId))))
    case SessionModelSet(_, modelId) =>
      (match Touch(session, e.occurredAt)
       case None => None
       case Some(c) => Some(c.(currentModelId := Some(modelId))))
    case SessionConfigOptionSet(_, key, value) =>
      (match Touch(session, e.occurredAt)
       case None => None
       case Some(c) => Some(c.(configOptions := Some(OrElse(c.configOptions, map[])[key := value]))))
    case ProviderSessionFailed(_) =>
      (match Touch(session, e.occurredAt)
       case None => None
       case Some(c) => Some(c.(providerSessionFailed := true)))
    case Other => session
    case _ => Touch(session, e.occurredAt)
  }

  // --- messages

  /** `text` goes on with the last part when that has this kind, and otherwise opens a part of its own. */
  function AppendPart(parts: seq<Part>, kind: PartKind, text: string): seq<Part> {
    if parts != [] && parts[|parts| - 1].kind == kind then
      parts[|parts| - 1 := Part(kind, parts[|parts| - 1].text + text)]
    else
      parts + [Part(kind, text)]
  }

  /** The text parts, thinking excluded. */
  function ReplyText(parts: seq<Part>): string {
    if parts == [] then ""
    else (if parts[0].kind == Text then parts[0].text else "") + ReplyText(parts[1..])
  }

  predicate HasAssistant(messages: seq<Message>, messageId: string) {
    exists i :: 0 <= i < |messages| && messages[i].Assistant? && messages[i].messageId == messageId
  }

  /** Every row with this id is replaced by the first one, grown by the token. */
  function GrowAssistant(messages: seq<Message>, messageId: string, kind: PartKind, token: string): seq<Message> {
    if messages == [] then []
    else if messages[0].Assistant? && messages[0].messageId == messageId then
      var updated := messages[0].(parts := AppendPart(messages[0].parts, kind, token));
      [updated] + ReplaceAssistant(messages[1..], updated)
    else
      [messages[0]] + GrowAssistant(messages[1..], messageId, kind, token)
  }

  function ReplaceAssistant(messages: seq<Message>, updated: Message): seq<Message> {
    if messages == [] then []
    else
      [if messages[0].Assistant? && messages[0].messageId == updated.messageId then updated else messages[0]]
      + ReplaceAssistant(messages[1..], updated)
  }

  function UpsertAssistant(
    messages: seq<Message>, sequence: nat, sessionId: string, messageId: string, kind: PartKind, token: string)
    : seq<Message>
  {
    if HasAssistant(messages, messageId) then GrowAssistant(messages, messageId, kind, token)
    else messages + [Assistant(sessionId, sequence, messageId, [Part(kind, token)])]
  }

  predicate HasUser(messages: seq<Message>, messageId: string) {
    exists i :: 0 <= i < |messages| && messages[i].User? && messages[i].messageId == messageId
  }

  function AppendUser(
    messages: seq<Message>, sequence: nat, sessionId: string, messageId: string, text: string): seq<Message>
  {
    if HasUser(messages, messageId) then messages
    else messages + [User(sessionId, sequence, messageId, text)]
  }

  function MessagesAfter(messages: seq<Message>, e: Event): seq<Message> {
    match e.payload
    case MessageSent(sessionId, messageId, text) => AppendUser(messages, e.sequence, sessionId, messageId, text)
    case TokenAppended(sessionId, messageId, token) =>
      UpsertAssistant(messages, e.sequence, sessionId, messageId, Text, token)
    case ThoughtAppended(sessionId, messageId, token) =>
      UpsertAssistant(messages, e.sequence, sessionId, messageId, Thought, token)
    case _ => messages
  }

  // --- turns

  predicate IsOpen(turn: Turn) {
    turn.status == Running && turn.endedAt == None
  }

  predicate HasTurn(turns: seq<Turn>, turnId: string) {
    exists i :: 0 <= i < |turns| && turns[i].turnId == turnId
  }

  function CloseAll(turns: seq<Turn>, endedAt: string): (r: seq<Turn>)
    ensures |r| == |turns|
  {
    if turns == [] then []
    else
      [if IsOpen(turns[0]) then turns[0].(status := Completed, endedAt := Some(endedAt)) else turns[0]]
      + CloseAll(turns[1..], endedAt)
  }

  function StartTurn(turnId: string, sessionId: string, sequence: nat, startedAt: string): Turn {
    Turn(turnId, sessionId, sequence, Running, startedAt, None, Usage(0, 0, 0, 0, 0.0, None))
  }

  /** The first open turn with this id, or without an id the last open turn. */
  function FindTarget(turns: seq<Turn>, turnId: Option<string>): Option<Turn> {
    if turns == [] then None
    else
      match turnId
      case Some(id) =>
        if turns[0].turnId == id && IsOpen(turns[0]) then Some(turns[0]) else FindTarget(turns[1..], turnId)
      case None =>
        var n := |turns| - 1;
        if IsOpen(turns[n]) then Some(turns[n]) else FindTarget(turns[..n], turnId)
  }

  function ReplaceEvery(turns: seq<Turn>, next: Turn): seq<Turn> {
    if turns == [] then []
    else [if turns[0].turnId == next.turnId then next else turns[0]] + ReplaceEvery(turns[1..], next)
  }

  function ReplaceTurn(turns: seq<Turn>, next: Turn): seq<Turn> {
    if HasTurn(turns, next.turnId) then ReplaceEvery(turns, next) else turns + [next]
  }

  function Close(turns: seq<Turn>, turnId: Option<string>, status: TurnStatus, endedAt: string): seq<Turn> {
    match FindTarget(turns, turnId)
    case None => turns
    case Some(turn) => ReplaceTurn(turns, turn.(status := status, endedAt := Some(endedAt)))
  }

  function WithReport(usage: Usage, report: UsageReport): Usage {
    Usage(
      OrElse(report.inputTokens, usage.inputTokens),
      OrElse(report.outputTokens, usage.outputTokens),
      OrElse(report.cacheReadTokens, usage.cacheReadTokens),
      OrElse(report.cacheWriteTokens, usage.cacheWriteTokens),
      OrElse(report.costUsd, usage.costUsd),
      if report.contextWindowSize.Some? then report.contextWindowSize else usage.contextWindowSize)
  }

  function Observe(turns: seq<Turn>, turnId: Option<string>, report: UsageReport): seq<Turn> {
    match FindTarget(turns, turnId)
    case None => turns
    case Some(turn) => ReplaceTurn(turns, turn.(usage := WithReport(turn.usage, report)))
  }

  function TurnsAfter(turns: seq<Turn>, e: Event): seq<Turn> {
    match e.payload
    case MessageSent(sessionId, messageId, _) =>
      if HasTurn(turns, messageId) then turns
      else CloseAll(turns, e.occurredAt) + [StartTurn(messageId, sessionId, e.sequence, e.occurredAt)]
    case TurnCompleted(_, turnId) => Close(turns, turnId, Completed, e.occurredAt)
    case TurnCancelled(_, turnId) => Close(turns, turnId, Cancelled, e.occurredAt)
    case TurnUsageObserved(_, turnId, report) => Observe(turns, turnId, report)
    case _ => turns
  }

  // --- activities and approvals

  function WithoutActivity(activities: seq<Activity>, activityId: string): seq<Activity> {
    if activities == [] then []
    else
      (if activities[0].activityId != activityId then [activities[0]] else [])
      + WithoutActivity(activities[1..], activityId)
  }

  function FindActivity(activities: seq<Activity>, activityId: string): Option<Activity> {
    if activities == [] then None
    else if activities[0].activityId == activityId then Some(activities[0])
    else FindActivity(activities[1..], activityId)
  }

  /** The incoming output, or else the one already recorded. */
  function RecordedOutput(activities: seq<Activity>, activityId: string, incoming: Option<string>): Option<string> {
    if incoming.Some? then incoming
    else
      match FindActivity(activities, activityId)
      case None => None
      case Some(row) => row.output
  }

  function ActivitiesAfter(activities: seq<Activity>, e: Event): seq<Activity> {
    match e.payload
    case ToolCallObserved(sessionId, activityId, status, title, path, toolCallId, output) =>
      WithoutActivity(activities, activityId)
      + [Activity(activityId, sessionId, e.sequence, status, title, path, toolCallId,
                  RecordedOutput(activities, activityId, output))]
    case _ => activities
  }

  function WithoutApproval(approvals: seq<Approval>, id: string): seq<Approval> {
    if approvals == [] then []
    else
      (if approvals[0].approvalRequestId != id then [approvals[0]] else [])
      + WithoutApproval(approvals[1..], id)
  }

  function ApprovalsAfter(approvals: seq<Approval>, e: Event): seq<Approval> {
    match e.payload
    case ApprovalRequested(sessionId, id, title) =>
      WithoutApproval(approvals, id) + [Approval(id, sessionId, e.sequence, title)]
    case InteractionReplied(_, id) => WithoutApproval(approvals, id)
    case _ => approvals
  }

  // --- checkpoints

  const MAX_RPC_SESSION_CHECKPOINTS: nat := 500

  function CheckpointNumber(row: Checkpoint): int {
    row.checkpointNumber
  }

  function TakeRight<T>(xs: seq<T>, n: nat): seq<T> {
    if |xs| <= n then xs else xs[|xs| - n..]
  }

  function RetainNewest(rows: seq<Checkpoint>): seq<Checkpoint> {
    TakeRight(Sort(rows, CheckpointNumber), MAX_RPC_SESSION_CHECKPOINTS)
  }

  function WithoutCheckpoint(rows: seq<Checkpoint>, checkpointId: string): seq<Checkpoint> {
    if rows == [] then []
    else
      (if rows[0].checkpointId != checkpointId then [rows[0]] else [])
      + WithoutCheckpoint(rows[1..], checkpointId)
  }

  function NewCheckpoint(e: Event): Checkpoint
    requires e.payload.CheckpointCreated?
  {
    var p := e.payload;
    Checkpoint(
      p.checkpointId, p.sessionId, e.sequence, p.checkpointNumber, p.name, p.isAuto,
      p.checkpointToolCallId, p.fileCount, Missing, e.occurredAt, None)
  }

  /** One row after a readiness or revert event for its id. */
  function RowAfter(row: Checkpoint, e: Event): Checkpoint {
    match e.payload
    case CheckpointReadinessChanged(_, id, status) =>
      if row.checkpointId != id then row else row.(sequence := e.sequence, status := status)
    case CheckpointReverted(_, id) =>
      if row.checkpointId != id then row else row.(sequence := e.sequence, lastRevertedAt := Some(e.occurredAt))
    case _ => row
  }

  function RowsAfter(rows: seq<Checkpoint>, e: Event): seq<Checkpoint> {
    if rows == [] then [] else [RowAfter(rows[0], e)] + RowsAfter(rows[1..], e)
  }

  function CheckpointsAfter(rows: seq<Checkpoint>, e: Event): seq<Checkpoint> {
    match e.payload
    case CheckpointCreated(_, id, _, _, _, _, _) => RetainNewest(WithoutCheckpoint(rows, id) + [NewCheckpoint(e)])
    case CheckpointReadinessChanged(_, _, _) => RetainNewest(RowsAfter(rows, e))
    case CheckpointReverted(_, _) => RetainNewest(RowsAfter(rows, e))
    case _ => rows
  }

  /** The checkpoint branches leave the session record alone; every other branch rewrites or touches it. */
  predicate KeepsSession(payload: Payload) {
    payload.CheckpointCreated? || payload.CheckpointReadinessChanged? || payload.CheckpointReverted? || payload.Other?
  }

  // --- the fold

  /** All branches for an event of this session, field by field. */
  function Effect(s: Snapshot, e: Event): Snapshot {
    Snapshot(
      Watermark(s, e.sequence),
      if KeepsSession(e.payload) then s.session else SessionAfter(s.session, e),
      MessagesAfter(s.messages, e),
      TurnsAfter(s.turns, e),
      ActivitiesAfter(s.activities, e),
      ApprovalsAfter(s.pendingApprovals, e),
      CheckpointsAfter(s.checkpoints, e))
  }

  /**
   * applyEventToRpcSessionSnapshot. Every session branch starts with the same test: an event of
   * another session only moves the watermark.
   */
  function Apply(s: Snapshot, e: Event): Snapshot {
    if e.sequence <= s.snapshotSequence then s
    else
      match SessionOf(e.payload)
      case None => WithSequence(s, e.sequence)
      case Some(sessionId) => if IsThisSession(s, sessionId) then Effect(s, e) else WithSequence(s, e.sequence)
  }

  function Fold(s: Snapshot, events: seq<Event>): Snapshot {
    if events == [] then s else Apply(Fold(s, events[..|events| - 1]), events[|events| - 1])
  }

  // ----- the watermark -----

  ghost predicate Increasing(events: seq<Event>) {
    forall i, j :: 0 <= i < j < |events| ==> events[i].sequence < events[j].sequence
  }

  ghost function MaxSequence(from: nat, events: seq<Event>): nat {
    if events == [] then from
    else
      var front := MaxSequence(from, events[..|events| - 1]);
      if events[|events| - 1].sequence > front then events[|events| - 1].sequence else front
  }

  lemma FoldOfSnoc(s: Snapshot, events: seq<Event>, e: Event)
    ensures Fold(s, events + [e]) == Apply(Fold(s, events), e)
  {
    assert (events + [e])[..|events|] == events;
  }

  lemma {:induction false} FoldOfAppend(s: Snapshot, a: seq<Event>, b: seq<Event>)
    ensures Fold(s, a + b) == Fold(Fold(s, a), b)
  {
    if b == [] {
      assert a + b == a;
    } else {
      var n := |b| - 1;
      FoldOfAppend(s, a, b[..n]);
      assert a + b == (a + b[..n]) + [b[n]];
      FoldOfSnoc(s, a + b[..n], b[n]);
    }
  }

  /** The watermark of a fold is the largest sequence it has seen. */
  lemma {:induction false} FoldWatermark(s: Snapshot, events: seq<Event>)
    ensures Fold(s, events).snapshotSequence == MaxSequence(s.snapshotSequence, events) >= s.snapshotSequence
  {
    if events == [] {
    } else {
      FoldWatermark(s, events[..|events| - 1]);
    }
  }

  lemma {:induction false} MaxSequenceBounds(from: nat, events: seq<Event>, i: nat)
    requires i < |events|
    ensures events[i].sequence <= MaxSequence(from, events)
  {
    if i == |events| - 1 {
    } else {
      MaxSequenceBounds(from, events[..|events| - 1], i);
    }
  }

  lemma {:induction false} OldEventsChangeNothing(s: Snapshot, events: seq<Event>)
    requires forall i :: 0 <= i < |events| ==> events[i].sequence <= s.snapshotSequence
    ensures Fold(s, events) == s
  {
    if events == [] {
    } else {
      OldEventsChangeNothing(s, events[..|events| - 1]);
    }
  }

  /** Replaying what a snapshot already holds changes nothing, whatever order it arrives in. */
  lemma ReplayIsIdempotent(s: Snapshot, events: seq<Event>)
    ensures Fold(Fold(s, events), events) == Fold(s, events)
  {
    FoldWatermark(s, events);
    forall i | 0 <= i < |events| ensures events[i].sequence <= Fold(s, events).snapshotSequence {
      MaxSequenceBounds(s.snapshotSequence, events, i);
    }
    OldEventsChangeNothing(Fold(s, events), events);
  }

  // ----- the session a snapshot belongs to -----

  function Holder(s: Snapshot): Option<string> {
    if s.session.Some? then Some(s.session.value.sessionId) else None
  }

  lemma SessionStays(session: Option<Session>, e: Event)
    requires session.Some? && SessionOf(e.payload).Some?
    requires SessionOf(e.payload).value == session.value.sessionId
    ensures SessionAfter(session, e).Some? && SessionAfter(session, e).value.sessionId == session.value.sessionId
  {
  }

  /** Once a snapshot holds a session it keeps holding that session. */
  lemma ApplyKeepsHolder(s: Snapshot, e: Event)
    requires s.session.Some?
    ensures Holder(Apply(s, e)) == Holder(s)
  {
    if SessionOf(e.payload).Some? && IsThisSession(s, SessionOf(e.payload).value) {
      SessionStays(s.session, e);
    }
  }

  // ----- isolation -----

  ghost predicate SameButSequence(a: Snapshot, b: Snapshot) {
    a.(snapshotSequence := b.snapshotSequence) == b
  }

  /** The events a holder of `sessionId` keeps: its own and those of no session. */
  function OwnEvents(events: seq<Event>, sessionId: string): seq<Event> {
    if events == [] then []
    else
      var e := events[|events| - 1];
      OwnEvents(events[..|events| - 1], sessionId)
      + if SessionOf(e.payload) == Some(sessionId) || SessionOf(e.payload) == None then [e] else []
  }

  lemma ApplyIgnoresSequence(a: Snapshot, b: Snapshot, e: Event)
    requires SameButSequence(a, b) && e.sequence > a.snapshotSequence && e.sequence > b.snapshotSequence
    ensures SameButSequence(Apply(a, e), Apply(b, e))
  {
  }

  lemma ForeignOnlyCounts(s: Snapshot, e: Event)
    requires s.session.Some? && SessionOf(e.payload).Some? && SessionOf(e.payload) != Holder(s)
    ensures SameButSequence(Apply(s, e), s)
  {
  }

  lemma {:induction false} FoldKeepsHolder(s: Snapshot, events: seq<Event>)
    requires s.session.Some?
    ensures Fold(s, events).session.Some? && Holder(Fold(s, events)) == Holder(s)
  {
    if events == [] {
    } else {
      FoldKeepsHolder(s, events[..|events| - 1]);
      ApplyKeepsHolder(Fold(s, events[..|events| - 1]), events[|events| - 1]);
    }
  }

  lemma {:induction false} OwnEventsAreOlder(events: seq<Event>, sessionId: string, from: nat)
    ensures MaxSequence(from, OwnEvents(events, sessionId)) <= MaxSequence(from, events)
  {
    if events == [] {
    } else {
      var n := |events| - 1;
      var own := OwnEvents(events[..n], sessionId);
      OwnEventsAreOlder(events[..n], sessionId, from);
      assert (own + [events[n]])[..|own|] == own;
      assert own + [] == own;
    }
  }

  lemma {:induction false} MaxOfIncreasing(from: nat, events: seq<Event>, bound: nat)
    requires from < bound && forall i :: 0 <= i < |events| ==> events[i].sequence < bound
    ensures MaxSequence(from, events) < bound
  {
    if events == [] {
    } else {
      MaxOfIncreasing(from, events[..|events| - 1], bound);
    }
  }

  /** Both folds take the next event, or both have already passed it. */
  lemma OneMore(s: Snapshot, a: Snapshot, b: Snapshot, front: seq<Event>, e: Event)
    requires forall i :: 0 <= i < |front| ==> front[i].sequence < e.sequence
    requires SameButSequence(a, b)
    requires s.snapshotSequence <= b.snapshotSequence <= a.snapshotSequence == MaxSequence(s.snapshotSequence, front)
    ensures SameButSequence(Apply(a, e), Apply(b, e))
  {
    if e.sequence > s.snapshotSequence {
      MaxOfIncreasing(s.snapshotSequence, front, e.sequence);
      ApplyIgnoresSequence(a, b, e);
    }
  }

  lemma OwnEventsStep(front: seq<Event>, e: Event, sid: string)
    ensures OwnEvents(front + [e], sid)
         == if SessionOf(e.payload) == Some(sid) || SessionOf(e.payload) == None then OwnEvents(front, sid) + [e]
            else OwnEvents(front, sid)
  {
    assert (front + [e])[..|front|] == front;
  }

  lemma FoldOrder(s: Snapshot, events: seq<Event>, sid: string)
    ensures s.snapshotSequence <= Fold(s, OwnEvents(events, sid)).snapshotSequence
         <= Fold(s, events).snapshotSequence == MaxSequence(s.snapshotSequence, events)
  {
    FoldWatermark(s, events);
    FoldWatermark(s, OwnEvents(events, sid));
    OwnEventsAreOlder(events, sid, s.snapshotSequence);
  }

  lemma InvisibleStep(s: Snapshot, front: seq<Event>, e: Event)
    requires s.session.Some? && forall i :: 0 <= i < |front| ==> front[i].sequence < e.sequence
    requires SameButSequence(Fold(s, front), Fold(s, OwnEvents(front, s.session.value.sessionId)))
    ensures SameButSequence(Fold(s, front + [e]), Fold(s, OwnEvents(front + [e], s.session.value.sessionId)))
  {
    var sid := s.session.value.sessionId;
    var own := OwnEvents(front, sid);
    FoldOfSnoc(s, front, e);
    OwnEventsStep(front, e, sid);
    if SessionOf(e.payload) == Some(sid) || SessionOf(e.payload) == None {
      FoldOfSnoc(s, own, e);
      FoldOrder(s, front, sid);
      OneMore(s, Fold(s, front), Fold(s, own), front, e);
    } else {
      FoldKeepsHolder(s, front);
      ForeignOnlyCounts(Fold(s, front), e);
    }
  }

  /**
   * A snapshot that holds a session ends up the same, up to its watermark, when all events of
   * other sessions are deleted from an ordered run.
   */
  lemma {:induction false} OtherSessionsAreInvisible(s: Snapshot, events: seq<Event>)
    requires s.session.Some? && Increasing(events)
    ensures SameButSequence(Fold(s, events), Fold(s, OwnEvents(events, s.session.value.sessionId)))
  {
    if events == [] {
    } else {
      var front, e := events[..|events| - 1], events[|events| - 1];
      OtherSessionsAreInvisible(s, front);
      InvisibleStep(s, front, e);
      assert events == front + [e];
    }
  }

  // ----- the events a fold takes -----

  /** The session a run has settled on, worked out from the events alone. */
  ghost function HolderAfter(from: nat, holder: Option<string>, events: seq<Event>): Option<string> {
    if events == [] then holder
    else
      var front, e := events[..|events| - 1], events[|events| - 1];
      var before := HolderAfter(from, holder, front);
      if e.payload.SessionCreated? && e.sequence > MaxSequence(from, front) && before == None
      then Some(e.payload.sessionId) else before
  }

  ghost predicate Admits(from: nat, holder: Option<string>, front: seq<Event>, e: Event) {
    && e.sequence > MaxSequence(from, front)
    && !e.payload.Other?
    && (HolderAfter(from, holder, front) == None || HolderAfter(from, holder, front) == Some(e.payload.sessionId))
  }

  /** The events a run admits: newer than all before, of a session, and not of another session. */
  ghost function Admitted(from: nat, holder: Option<string>, events: seq<Event>): seq<Event> {
    if events == [] then []
    else
      var front, e := events[..|events| - 1], events[|events| - 1];
      Admitted(from, holder, front) + if Admits(from, holder, front, e) then [e] else []
  }

  lemma {:induction false} FoldHolder(s: Snapshot, events: seq<Event>)
    ensures Holder(Fold(s, events)) == HolderAfter(s.snapshotSequence, Holder(s), events)
  {
    if events == [] {
    } else {
      var front, e := events[..|events| - 1], events[|events| - 1];
      FoldHolder(s, front);
      FoldWatermark(s, front);
      HolderStep(Fold(s, front), e);
    }
  }

  lemma HolderStep(s: Snapshot, e: Event)
    ensures Holder(Apply(s, e))
         == if e.payload.SessionCreated? && e.sequence > s.snapshotSequence && Holder(s) == None
            then Some(e.payload.sessionId) else Holder(s)
  {
    if s.session.Some? {
      ApplyKeepsHolder(s, e);
    }
  }

  lemma AdmittedStep(from: nat, holder: Option<string>, front: seq<Event>, e: Event)
    ensures Admitted(from, holder, front + [e])
         == Admitted(from, holder, front) + if Admits(from, holder, front, e) then [e] else []
  {
    assert (front + [e])[..|front|] == front;
  }

  ghost predicate Takes(s: Snapshot, e: Event) {
    && e.sequence > s.snapshotSequence
    && SessionOf(e.payload).Some?
    && (Holder(s) == None || Holder(s) == SessionOf(e.payload))
  }

  lemma ApplyStep(s: Snapshot, e: Event)
    ensures if Takes(s, e) then Apply(s, e) == Effect(s, e) else SameButSequence(Apply(s, e), s)
  {
  }

  /** One more event: the fold runs its branch exactly when the run admits it. */
  lemma FoldStep(s: Snapshot, front: seq<Event>, e: Event)
    ensures if Admits(s.snapshotSequence, Holder(s), front, e)
            then Fold(s, front + [e]) == Effect(Fold(s, front), e)
            else SameButSequence(Fold(s, front + [e]), Fold(s, front))
  {
    FoldOfSnoc(s, front, e);
    FoldHolder(s, front);
    FoldWatermark(s, front);
    ApplyStep(Fold(s, front), e);
  }
}
