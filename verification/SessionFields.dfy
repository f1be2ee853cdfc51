/**
 * The session record and the checkpoint rows of a folded session, read off the admitted events alone
 * (packages/contracts/src/sessionSnapshot.ts).
 */
module SessionFields {
  import opened Wrappers
  import opened StableSort
  import opened SessionSnapshot

  // ----- the latest event of a kind since a reset -----

  /** The latest value `pick` finds since the last event that `resets`. */
  ghost function Since<T>(events: seq<Event>, resets: Event -> bool, pick: Event -> Option<T>): Option<T> {
    if events == [] then None
    else
      var e := events[|events| - 1];
      if pick(e).Some? then pick(e)
      else if resets(e) then None
      else Since(events[..|events| - 1], resets, pick)
  }

  lemma SinceOfSnoc<T>(front: seq<Event>, e: Event, resets: Event -> bool, pick: Event -> Option<T>)
    ensures Since(front + [e], resets, pick)
         == if pick(e).Some? then pick(e) else if resets(e) then None else Since(front, resets, pick)
  {
    assert (front + [e])[..|front|] == front;
  }

  // ----- the session record -----

  function Creates(e: Event): bool {
    e.payload.SessionCreated?
  }

  function Creation(e: Event): Option<Event> {
    if Creates(e) then Some(e) else None
  }

  function NewTitle(e: Event): Option<string> {
    if e.payload.SessionMetaUpdated? then e.payload.newTitle else None
  }

  function NewPrNumber(e: Event): Option<Option<nat>> {
    if e.payload.SessionMetaUpdated? then e.payload.prNumber else None
  }

  function NewPrLinkMode(e: Event): Option<Option<string>> {
    if e.payload.SessionMetaUpdated? then e.payload.prLinkMode else None
  }

  function NewProviderSession(e: Event): Option<string> {
    if e.payload.SessionMetaUpdated? then e.payload.providerSessionId else None
  }

  function NewModels(e: Event): Option<seq<string>> {
    if e.payload.SessionMetaUpdated? then e.payload.models else None
  }

  function NewMode(e: Event): Option<string> {
    if e.payload.SessionModeSet? then Some(e.payload.modeId) else None
  }

  function NewModel(e: Event): Option<string> {
    if e.payload.SessionModelSet? then Some(e.payload.modelId) else None
  }

  function Failure(e: Event): Option<Event> {
    if e.payload.ProviderSessionFailed? then Some(e) else None
  }

  function SetOption(key: string): Event -> Option<string> {
    (e: Event) => if e.payload.SessionConfigOptionSet? && e.payload.key == key then Some(e.payload.value) else None
  }

  /** The checkpoint events leave the record alone; every other event of the session is activity. */
  function ActivityAt(e: Event): Option<string> {
    match e.payload
    case CheckpointCreated(_, _, _, _, _, _, _) => None
    case CheckpointReadinessChanged(_, _, _) => None
    case CheckpointReverted(_, _) => None
    case Other => None
    case _ => Some(e.occurredAt)
  }

  /** The options: for each key the latest value set, and nothing but such keys. */
  ghost predicate OptionsAre(options: Option<map<string, string>>, events: seq<Event>) {
    forall key ::
      Since(events, Creates, SetOption(key))
      == if options.Some? && key in options.value then Some(options.value[key]) else None
  }

  ghost predicate IdentityIs(c: Session, created: Event) {
    && created.payload.SessionCreated?
    && c.sessionId == created.payload.sessionId && c.projectId == created.payload.projectId
    && c.provider == created.payload.providerId && c.createdAt == created.occurredAt
  }

  ghost predicate DetailsAre(c: Session, events: seq<Event>, title: string) {
    && c.title == OrElse(Since(events, Creates, NewTitle), title)
    && c.prNumber == OrElse(Since(events, Creates, NewPrNumber), None)
    && c.prLinkMode == OrElse(Since(events, Creates, NewPrLinkMode), None)
    && c.providerSessionId == Since(events, Creates, NewProviderSession)
    && c.availableModels == Since(events, Creates, NewModels)
  }

  ghost predicate ChoicesAre(c: Session, events: seq<Event>) {
    && c.currentModeId == Since(events, Creates, NewMode)
    && c.currentModelId == Since(events, Creates, NewModel)
    && c.providerSessionFailed == Since(events, Creates, Failure).Some?
    && OptionsAre(c.configOptions, events)
  }

  ghost predicate ActivityIs(c: Session, events: seq<Event>) {
    c.updatedAt == c.lastActivityAt && Some(c.updatedAt) == Since(events, Creates, ActivityAt)
  }

  /** Later values win, and a session created again starts over. */
  ghost predicate RecordIs(session: Option<Session>, events: seq<Event>) {
    match Since(events, Creates, Creation)
    case None => session == None
    case Some(created) =>
      && created.payload.SessionCreated?
      && session.Some?
      && IdentityIs(session.value, created)
      && DetailsAre(session.value, events, created.payload.title)
      && ChoicesAre(session.value, events)
      && ActivityIs(session.value, events)
  }

  lemma OptionsStep(options: Option<map<string, string>>, front: seq<Event>, e: Event)
    requires OptionsAre(options, front)
    ensures !e.payload.SessionConfigOptionSet? && !Creates(e) ==> OptionsAre(options, front + [e])
    ensures Creates(e) ==> OptionsAre(None, front + [e])
    ensures e.payload.SessionConfigOptionSet? ==>
      OptionsAre(Some(OrElse(options, map[])[e.payload.key := e.payload.value]), front + [e])
  {
    forall key
      ensures Since(front + [e], Creates, SetOption(key))
           == if SetOption(key)(e).Some? then SetOption(key)(e)
              else if Creates(e) then None else Since(front, Creates, SetOption(key))
    {
      SinceOfSnoc(front, e, Creates, SetOption(key));
    }
  }

  lemma NewRecord(front: seq<Event>, e: Event)
    requires Creates(e)
    ensures RecordIs(SessionAfter(None, e), front + [e])
    ensures forall session :: SessionAfter(session, e) == SessionAfter(None, e)
  {
    SinceOfSnoc(front, e, Creates, Creation);
    DetailsSince(front, e);
    ChoicesSince(front, e);
    SinceOfSnoc(front, e, Creates, ActivityAt);
    forall key ensures Since(front + [e], Creates, SetOption(key)) == None {
      SinceOfSnoc(front, e, Creates, SetOption(key));
    }
  }

  /** The latest value after one more event. */
  ghost function NowLatest<T>(front: seq<Event>, e: Event, pick: Event -> Option<T>): Option<T> {
    if pick(e).Some? then pick(e) else if Creates(e) then None else Since(front, Creates, pick)
  }

  lemma DetailsSince(front: seq<Event>, e: Event)
    ensures Since(front + [e], Creates, NewTitle) == NowLatest(front, e, NewTitle)
    ensures Since(front + [e], Creates, NewPrNumber) == NowLatest(front, e, NewPrNumber)
    ensures Since(front + [e], Creates, NewPrLinkMode) == NowLatest(front, e, NewPrLinkMode)
    ensures Since(front + [e], Creates, NewProviderSession) == NowLatest(front, e, NewProviderSession)
    ensures Since(front + [e], Creates, NewModels) == NowLatest(front, e, NewModels)
  {
    SinceOfSnoc(front, e, Creates, NewTitle);
    SinceOfSnoc(front, e, Creates, NewPrNumber);
    SinceOfSnoc(front, e, Creates, NewPrLinkMode);
    SinceOfSnoc(front, e, Creates, NewProviderSession);
    SinceOfSnoc(front, e, Creates, NewModels);
  }

  lemma ChoicesSince(front: seq<Event>, e: Event)
    ensures Since(front + [e], Creates, NewMode) == NowLatest(front, e, NewMode)
    ensures Since(front + [e], Creates, NewModel) == NowLatest(front, e, NewModel)
    ensures Since(front + [e], Creates, Failure) == NowLatest(front, e, Failure)
  {
    SinceOfSnoc(front, e, Creates, NewMode);
    SinceOfSnoc(front, e, Creates, NewModel);
    SinceOfSnoc(front, e, Creates, Failure);
  }

  function RecordAfter(session: Option<Session>, e: Event): Option<Session> {
    if KeepsSession(e.payload) then session else SessionAfter(session, e)
  }

  lemma OnlyMetaSetsDetails(c: Session, e: Event)
    requires !Creates(e) && !e.payload.SessionMetaUpdated?
    ensures RecordAfter(Some(c), e).Some?
    ensures var d := RecordAfter(Some(c), e).value;
      && d.title == c.title && d.prNumber == c.prNumber && d.prLinkMode == c.prLinkMode
      && d.providerSessionId == c.providerSessionId && d.availableModels == c.availableModels
  {
  }

  lemma DetailsStep(c: Session, front: seq<Event>, e: Event, title: string)
    requires DetailsAre(c, front, title) && !Creates(e)
    ensures RecordAfter(Some(c), e).Some? && DetailsAre(RecordAfter(Some(c), e).value, front + [e], title)
  {
    DetailsSince(front, e);
    if !e.payload.SessionMetaUpdated? {
      OnlyMetaSetsDetails(c, e);
    }
  }

  /** What one event does to the choices. */
  lemma ChoicesAfter(c: Session, e: Event)
    requires !Creates(e)
    ensures RecordAfter(Some(c), e).Some?
    ensures var d := RecordAfter(Some(c), e).value;
      && d.currentModeId == (if NewMode(e).Some? then NewMode(e) else c.currentModeId)
      && d.currentModelId == (if NewModel(e).Some? then NewModel(e) else c.currentModelId)
      && d.providerSessionFailed == (Failure(e).Some? || c.providerSessionFailed)
      && d.configOptions == if e.payload.SessionConfigOptionSet?
                            then Some(OrElse(c.configOptions, map[])[e.payload.key := e.payload.value])
                            else c.configOptions
  {
  }

  lemma ChoicesStep(c: Session, front: seq<Event>, e: Event)
    requires ChoicesAre(c, front) && !Creates(e)
    ensures RecordAfter(Some(c), e).Some? && ChoicesAre(RecordAfter(Some(c), e).value, front + [e])
  {
    ChoicesSince(front, e);
    ChoicesAfter(c, e);
    OptionsStep(c.configOptions, front, e);
  }

  lemma ActivityStep(c: Session, front: seq<Event>, e: Event)
    requires ActivityIs(c, front) && !Creates(e)
    ensures RecordAfter(Some(c), e).Some? && ActivityIs(RecordAfter(Some(c), e).value, front + [e])
  {
    SinceOfSnoc(front, e, Creates, ActivityAt);
  }

  lemma IdentityStep(c: Session, created: Event, e: Event)
    requires IdentityIs(c, created) && !Creates(e)
    ensures RecordAfter(Some(c), e).Some? && IdentityIs(RecordAfter(Some(c), e).value, created)
  {
  }

  lemma NoRecordStep(e: Event)
    requires !Creates(e)
    ensures RecordAfter(None, e) == None
  {
  }

  lemma RecordStep(session: Option<Session>, front: seq<Event>, e: Event)
    requires RecordIs(session, front)
    ensures RecordIs(RecordAfter(session, e), front + [e])
  {
    SinceOfSnoc(front, e, Creates, Creation);
    if Creates(e) {
      NewRecord(front, e);
    } else if session.None? {
      NoRecordStep(e);
    } else {
      var created := Since(front, Creates, Creation).value;
      IdentityStep(session.value, created, e);
      DetailsStep(session.value, front, e, created.payload.title);
      ChoicesStep(session.value, front, e);
      ActivityStep(session.value, front, e);
    }
  }

  // ----- checkpoint rows -----

  function CreatesRow(id: string): Event -> bool {
    (e: Event) => e.payload.CheckpointCreated? && e.payload.checkpointId == id
  }

  function RowCreation(id: string): Event -> Option<Event> {
    (e: Event) => if e.payload.CheckpointCreated? && e.payload.checkpointId == id then Some(e) else None
  }

  function NewReadiness(id: string): Event -> Option<CheckpointStatus> {
    (e: Event) =>
      if e.payload.CheckpointReadinessChanged? && e.payload.checkpointId == id then Some(e.payload.status) else None
  }

  function NewRevert(id: string): Event -> Option<string> {
    (e: Event) => if e.payload.CheckpointReverted? && e.payload.checkpointId == id then Some(e.occurredAt) else None
  }

  function Mention(id: string): Event -> Option<nat> {
    (e: Event) =>
      if (e.payload.CheckpointCreated? || e.payload.CheckpointReadinessChanged? || e.payload.CheckpointReverted?)
         && e.payload.checkpointId == id
      then Some(e.sequence) else None
  }

  /** A row shows the latest creation of its id and what was reported since. */
  ghost predicate CheckpointIs(row: Checkpoint, events: seq<Event>) {
    var id := row.checkpointId;
    match Since(events, CreatesRow(id), RowCreation(id))
    case None => false
    case Some(created) =>
      && created.payload.CheckpointCreated?
      && row.sessionId == created.payload.sessionId
      && row.checkpointNumber == created.payload.checkpointNumber
      && row.name == created.payload.name
      && row.isAuto == created.payload.isAuto
      && row.toolCallId == created.payload.checkpointToolCallId
      && row.fileCount == created.payload.fileCount
      && row.createdAt == created.occurredAt
      && row.status == OrElse(Since(events, CreatesRow(id), NewReadiness(id)), Missing)
      && row.lastRevertedAt == Since(events, CreatesRow(id), NewRevert(id))
      && Some(row.sequence) == Since(events, CreatesRow(id), Mention(id))
  }

  ghost predicate CheckpointsAre(rows: seq<Checkpoint>, events: seq<Event>) {
    forall row :: row in rows ==> CheckpointIs(row, events)
  }

  lemma SinceOfRow(front: seq<Event>, e: Event, id: string)
    ensures Since(front + [e], CreatesRow(id), RowCreation(id))
         == if CreatesRow(id)(e) then Some(e) else Since(front, CreatesRow(id), RowCreation(id))
    ensures Since(front + [e], CreatesRow(id), NewReadiness(id))
         == if NewReadiness(id)(e).Some? then NewReadiness(id)(e)
            else if CreatesRow(id)(e) then None else Since(front, CreatesRow(id), NewReadiness(id))
    ensures Since(front + [e], CreatesRow(id), NewRevert(id))
         == if NewRevert(id)(e).Some? then NewRevert(id)(e)
            else if CreatesRow(id)(e) then None else Since(front, CreatesRow(id), NewRevert(id))
    ensures Since(front + [e], CreatesRow(id), Mention(id))
         == if Mention(id)(e).Some? then Mention(id)(e) else Since(front, CreatesRow(id), Mention(id))
  {
    SinceOfSnoc(front, e, CreatesRow(id), RowCreation(id));
    SinceOfSnoc(front, e, CreatesRow(id), NewReadiness(id));
    SinceOfSnoc(front, e, CreatesRow(id), NewRevert(id));
    SinceOfSnoc(front, e, CreatesRow(id), Mention(id));
  }

  lemma NewCheckpointIs(front: seq<Event>, e: Event)
    requires e.payload.CheckpointCreated?
    ensures CheckpointIs(NewCheckpoint(e), front + [e])
  {
    SinceOfRow(front, e, e.payload.checkpointId);
  }

  lemma OldCheckpointIs(row: Checkpoint, front: seq<Event>, e: Event)
    requires CheckpointIs(row, front) && !CreatesRow(row.checkpointId)(e)
    ensures CheckpointIs(RowAfter(row, e), front + [e])
  {
    SinceOfRow(front, e, row.checkpointId);
  }

  lemma KeptWasThere(rows: seq<Checkpoint>, row: Checkpoint)
    requires row in RetainNewest(rows)
    ensures row in rows
  {
    SortMember(rows, CheckpointNumber, row);
  }

  lemma {:induction false} WithoutHasOtherIds(rows: seq<Checkpoint>, id: string, row: Checkpoint)
    requires row in WithoutCheckpoint(rows, id)
    ensures row.checkpointId != id && row in rows
  {
    if rows[0] == row && rows[0].checkpointId != id {
    } else {
      WithoutHasOtherIds(rows[1..], id, row);
    }
  }

  lemma {:induction false} MappedCame(rows: seq<Checkpoint>, e: Event, row: Checkpoint) returns (before: Checkpoint)
    requires row in RowsAfter(rows, e)
    ensures before in rows && row == RowAfter(before, e)
  {
    if row == RowAfter(rows[0], e) {
      before := rows[0];
    } else {
      before := MappedCame(rows[1..], e, row);
    }
  }

  lemma CheckpointsAreStep(rows: seq<Checkpoint>, front: seq<Event>, e: Event)
    requires CheckpointsAre(rows, front)
    ensures CheckpointsAre(CheckpointsAfter(rows, e), front + [e])
  {
    forall row | row in CheckpointsAfter(rows, e) ensures CheckpointIs(row, front + [e]) {
      match e.payload
      case CheckpointCreated(_, id, _, _, _, _, _) =>
        KeptWasThere(WithoutCheckpoint(rows, id) + [NewCheckpoint(e)], row);
        if row == NewCheckpoint(e) {
          NewCheckpointIs(front, e);
        } else {
          WithoutHasOtherIds(rows, id, row);
          OldCheckpointIs(row, front, e);
        }
      case CheckpointReadinessChanged(_, _, _) =>
        KeptWasThere(RowsAfter(rows, e), row);
        var before := MappedCame(rows, e, row);
        OldCheckpointIs(before, front, e);
      case CheckpointReverted(_, _) =>
        KeptWasThere(RowsAfter(rows, e), row);
        var before := MappedCame(rows, e, row);
        OldCheckpointIs(before, front, e);
      case _ =>
        OldCheckpointIs(row, front, e);
    }
  }

  // ----- runs -----

  ghost predicate FieldsAre(s: Snapshot, events: seq<Event>) {
    RecordIs(s.session, events) && CheckpointsAre(s.checkpoints, events)
  }

  lemma {:induction false} RunFieldsAre(from: nat, events: seq<Event>)
    ensures FieldsAre(Fold(Empty(from), events), Admitted(from, None, events))
  {
    if events == [] {
    } else {
      var front, e := events[..|events| - 1], events[|events| - 1];
      RunFieldsAre(from, front);
      RunFieldsStep(from, front, e);
      assert events == front + [e];
    }
  }

  lemma RunFieldsStep(from: nat, front: seq<Event>, e: Event)
    requires FieldsAre(Fold(Empty(from), front), Admitted(from, None, front))
    ensures FieldsAre(Fold(Empty(from), front + [e]), Admitted(from, None, front + [e]))
  {
    var s, taken := Fold(Empty(from), front), Admitted(from, None, front);
    FoldStep(Empty(from), front, e);
    AdmittedStep(from, None, front, e);
    if Admits(from, None, front, e) {
      RecordStep(s.session, taken, e);
      CheckpointsAreStep(s.checkpoints, taken, e);
    } else {
      assert taken + [] == taken;
    }
  }

  /** In every run the session record holds the latest value of each field since the session was last created. */
  lemma SessionMeaning(from: nat, events: seq<Event>)
    ensures RecordIs(Fold(Empty(from), events).session, Admitted(from, None, events))
  {
    RunFieldsAre(from, events);
  }

  /** In every run each checkpoint row shows the latest creation of its id and what was reported since. */
  lemma CheckpointsMeaning(from: nat, events: seq<Event>)
    ensures CheckpointsAre(Fold(Empty(from), events).checkpoints, Admitted(from, None, events))
  {
    RunFieldsAre(from, events);
  }
}
