/** The assistant rows of a folded session (packages/contracts/src/sessionSnapshot.ts, assistantMessageContent.ts). */
module SessionTranscript {
  import opened Wrappers
  import opened SessionSnapshot
  import opened SessionTurns

  // ----- merged runs, defined without the fold -----

  /** The slices with neighbours of one kind joined, built from the left end. */
  ghost function MergeRuns(slices: seq<Part>): seq<Part> {
    if slices == [] then []
    else
      var rest := MergeRuns(slices[1..]);
      if rest != [] && rest[0].kind == slices[0].kind
      then [Part(slices[0].kind, slices[0].text + rest[0].text)] + rest[1..]
      else [slices[0]] + rest
  }

  ghost predicate Alternates(parts: seq<Part>) {
    forall i :: 0 < i < |parts| ==> parts[i].kind != parts[i - 1].kind
  }

  /** Every character with the kind of slice it came in, in order. */
  ghost function Flatten(parts: seq<Part>): seq<(PartKind, char)> {
    if parts == [] then []
    else seq(|parts[0].text|, i requires 0 <= i < |parts[0].text| => (parts[0].kind, parts[0].text[i]))
         + Flatten(parts[1..])
  }

  lemma {:induction false} MergeRunsShape(slices: seq<Part>)
    ensures Alternates(MergeRuns(slices))
    ensures slices != [] ==> MergeRuns(slices) != [] && MergeRuns(slices)[0].kind == slices[0].kind
  {
    if slices == [] {
    } else {
      MergeRunsShape(slices[1..]);
    }
  }

  lemma {:induction false} MergeRunsKeepsReply(slices: seq<Part>)
    ensures ReplyText(MergeRuns(slices)) == ReplyText(slices)
  {
    if slices == [] {
    } else {
      var rest := MergeRuns(slices[1..]);
      MergeRunsKeepsReply(slices[1..]);
      var merged := MergeRuns(slices);
      if rest != [] && rest[0].kind == slices[0].kind {
        assert merged[1..] == rest[1..];
      } else {
        assert merged[1..] == rest;
      }
    }
  }

  lemma FlattenJoin(kind: PartKind, a: string, b: string, tail: seq<Part>)
    ensures Flatten([Part(kind, a + b)] + tail) == Flatten([Part(kind, a), Part(kind, b)] + tail)
  {
    var joined := [Part(kind, a + b)] + tail;
    var split := [Part(kind, a), Part(kind, b)] + tail;
    assert joined[1..] == tail && split[1..] == [Part(kind, b)] + tail && split[1..][1..] == tail;
  }

  lemma {:induction false} MergeRunsKeepsText(slices: seq<Part>)
    ensures Flatten(MergeRuns(slices)) == Flatten(slices)
  {
    if slices == [] {
    } else {
      var rest := MergeRuns(slices[1..]);
      MergeRunsKeepsText(slices[1..]);
      if rest != [] && rest[0].kind == slices[0].kind {
        FlattenJoin(slices[0].kind, slices[0].text, rest[0].text, rest[1..]);
        var split := [slices[0], rest[0]] + rest[1..];
        assert split[1..] == rest && split[0] == Part(slices[0].kind, slices[0].text);
      } else {
        assert ([slices[0]] + rest)[1..] == rest;
      }
    }
  }

  lemma AppendToTail(head: Part, tail: seq<Part>, kind: PartKind, text: string)
    requires tail != []
    ensures AppendPart([head] + tail, kind, text) == [head] + AppendPart(tail, kind, text)
  {
  }

  /** The incremental append is the merge of one more slice. */
  lemma {:induction false} AppendIsMerge(slices: seq<Part>, kind: PartKind, text: string)
    ensures MergeRuns(slices + [Part(kind, text)]) == AppendPart(MergeRuns(slices), kind, text)
  {
    var all := slices + [Part(kind, text)];
    if slices == [] {
      assert all[1..] == [];
    } else {
      AppendIsMerge(slices[1..], kind, text);
      assert all[1..] == slices[1..] + [Part(kind, text)];
      MergeStep(slices[0], MergeRuns(slices[1..]), kind, text);
    }
  }

  ghost function Prepend(first: Part, rest: seq<Part>): seq<Part> {
    if rest != [] && rest[0].kind == first.kind then [Part(first.kind, first.text + rest[0].text)] + rest[1..]
    else [first] + rest
  }

  /** Growing on the left and on the right commute. */
  lemma MergeStep(first: Part, rest: seq<Part>, kind: PartKind, text: string)
    ensures Prepend(first, AppendPart(rest, kind, text)) == AppendPart(Prepend(first, rest), kind, text)
  {
    if |rest| > 1 {
      assert rest == [rest[0]] + rest[1..];
      AppendToTail(rest[0], rest[1..], kind, text);
      AppendToTail(first, rest, kind, text);
      AppendToTail(Part(first.kind, first.text + rest[0].text), rest[1..], kind, text);
    } else if |rest| == 1 {
      assert rest == [rest[0]];
      AppendToTail(first, rest, kind, text);
      assert first.text + (rest[0].text + text) == first.text + rest[0].text + text;
    }
  }

  // ----- the slices of one message in a run -----

  ghost function SliceOf(e: Event, messageId: string): seq<Part> {
    match e.payload
    case TokenAppended(_, id, token) => if id == messageId then [Part(Text, token)] else []
    case ThoughtAppended(_, id, token) => if id == messageId then [Part(Thought, token)] else []
    case _ => []
  }

  ghost function Slices(events: seq<Event>, messageId: string): seq<Part> {
    if events == [] then []
    else Slices(events[..|events| - 1], messageId) + SliceOf(events[|events| - 1], messageId)
  }

  /** The sequence of the first event that carries a slice of the message. */
  ghost function FirstSliceAt(events: seq<Event>, messageId: string): nat {
    if events == [] then 0
    else
      var front := events[..|events| - 1];
      if Slices(front, messageId) == [] then events[|events| - 1].sequence else FirstSliceAt(front, messageId)
  }

  /** And the session it names. */
  ghost function FirstSliceOf(events: seq<Event>, messageId: string): Option<string> {
    if events == [] then None
    else
      var front := events[..|events| - 1];
      if Slices(front, messageId) == [] then SessionOf(events[|events| - 1].payload) else FirstSliceOf(front, messageId)
  }

  ghost predicate RowOk(m: Message, events: seq<Event>) {
    m.Assistant? ==>
      && m.parts == MergeRuns(Slices(events, m.messageId))
      && Slices(events, m.messageId) != []
      && m.sequence == FirstSliceAt(events, m.messageId)
      && Some(m.sessionId) == FirstSliceOf(events, m.messageId)
  }

  ghost predicate DistinctAssistants(messages: seq<Message>) {
    forall i, j :: 0 <= i < j < |messages| && messages[i].Assistant? && messages[j].Assistant? ==>
      messages[i].messageId != messages[j].messageId
  }

  ghost predicate Ordered(messages: seq<Message>, bound: nat) {
    && (forall i, j :: 0 <= i < j < |messages| ==> messages[i].sequence < messages[j].sequence)
    && (forall i :: 0 <= i < |messages| ==> messages[i].sequence <= bound)
  }

  /** `events` are the admitted events so far. */
  ghost predicate RowsOk(messages: seq<Message>, events: seq<Event>) {
    && (forall i :: 0 <= i < |messages| ==> RowOk(messages[i], events))
    && DistinctAssistants(messages)
    && forall id :: Slices(events, id) != [] ==> HasAssistant(messages, id)
  }

  lemma SlicesOfSnoc(events: seq<Event>, e: Event, id: string)
    ensures Slices(events + [e], id) == Slices(events, id) + SliceOf(e, id)
    ensures Slices(events, id) != [] ==> FirstSliceAt(events + [e], id) == FirstSliceAt(events, id)
    ensures Slices(events, id) == [] ==> FirstSliceAt(events + [e], id) == e.sequence
    ensures Slices(events, id) != [] ==> FirstSliceOf(events + [e], id) == FirstSliceOf(events, id)
    ensures Slices(events, id) == [] ==> FirstSliceOf(events + [e], id) == SessionOf(e.payload)
  {
    assert (events + [e])[..|events|] == events;
  }

  /** With distinct assistant ids, growing rewrites the one row of the message. */
  lemma {:induction false} GrowAt(messages: seq<Message>, id: string, kind: PartKind, token: string)
    requires DistinctAssistants(messages)
    ensures |GrowAssistant(messages, id, kind, token)| == |messages|
    ensures forall i :: 0 <= i < |messages| ==>
              GrowAssistant(messages, id, kind, token)[i]
              == if messages[i].Assistant? && messages[i].messageId == id
                 then messages[i].(parts := AppendPart(messages[i].parts, kind, token)) else messages[i]
  {
    if messages == [] {
    } else {
      var rest := messages[1..];
      forall i, j | 0 <= i < j < |rest| && rest[i].Assistant? && rest[j].Assistant?
        ensures rest[i].messageId != rest[j].messageId
      {
        assert rest[i] == messages[i + 1] && rest[j] == messages[j + 1];
      }
      if messages[0].Assistant? && messages[0].messageId == id {
        var updated := messages[0].(parts := AppendPart(messages[0].parts, kind, token));
        ReplaceAssistantRows(rest, updated);
        forall i | 0 < i < |messages| && messages[i].Assistant? ensures messages[i].messageId != id {
        }
      } else {
        GrowAt(rest, id, kind, token);
      }
    }
  }

  lemma HasAssistantOfSnoc(messages: seq<Message>, m: Message, id: string)
    ensures HasAssistant(messages + [m], id) <==> HasAssistant(messages, id) || (m.Assistant? && m.messageId == id)
  {
    var all := messages + [m];
    if HasAssistant(messages, id) {
      var i :| 0 <= i < |messages| && messages[i].Assistant? && messages[i].messageId == id;
      assert all[i].Assistant? && all[i].messageId == id;
    }
    if m.Assistant? && m.messageId == id {
      assert all[|messages|] == m;
    }
  }

  lemma RowStays(m: Message, events: seq<Event>, e: Event)
    requires RowOk(m, events) && SliceOf(e, m.messageId) == []
    ensures RowOk(m, events + [e])
  {
    SlicesOfSnoc(events, e, m.messageId);
    assert Slices(events, m.messageId) + [] == Slices(events, m.messageId);
  }

  lemma RowGrows(m: Message, events: seq<Event>, e: Event, kind: PartKind, token: string)
    requires RowOk(m, events) && m.Assistant? && SliceOf(e, m.messageId) == [Part(kind, token)]
    ensures RowOk(m.(parts := AppendPart(m.parts, kind, token)), events + [e])
  {
    SlicesOfSnoc(events, e, m.messageId);
    AppendIsMerge(Slices(events, m.messageId), kind, token);
  }

  lemma RowStarts(m: Message, events: seq<Event>, e: Event, kind: PartKind, token: string)
    requires m.Assistant? && m.sequence == e.sequence && m.parts == [Part(kind, token)]
    requires Some(m.sessionId) == SessionOf(e.payload)
    requires Slices(events, m.messageId) == [] && SliceOf(e, m.messageId) == [Part(kind, token)]
    ensures RowOk(m, events + [e])
  {
    SlicesOfSnoc(events, e, m.messageId);
    assert [] + [Part(kind, token)] == [Part(kind, token)];
    assert [Part(kind, token)][1..] == [];
  }

  lemma QuietStep(messages: seq<Message>, events: seq<Event>, e: Event)
    requires RowsOk(messages, events) && forall id :: SliceOf(e, id) == []
    ensures RowsOk(messages, events + [e])
  {
    forall i | 0 <= i < |messages| ensures RowOk(messages[i], events + [e]) {
      RowStays(messages[i], events, e);
    }
    forall id | Slices(events + [e], id) != [] ensures HasAssistant(messages, id) {
      SlicesOfSnoc(events, e, id);
    }
  }

  lemma UserStep(messages: seq<Message>, events: seq<Event>, e: Event)
    requires RowsOk(messages, events) && e.payload.MessageSent?
    ensures RowsOk(MessagesAfter(messages, e), events + [e])
  {
    QuietStep(messages, events, e);
    var later := MessagesAfter(messages, e);
    if later != messages {
      UserRowKeeps(messages, events + [e], later[|messages|]);
    }
  }

  lemma UserRowKeeps(messages: seq<Message>, events: seq<Event>, m: Message)
    requires RowsOk(messages, events) && m.User?
    ensures RowsOk(messages + [m], events)
  {
    forall id | Slices(events, id) != [] ensures HasAssistant(messages + [m], id) {
      HasAssistantOfSnoc(messages, m, id);
    }
  }

  lemma SliceStep(
    messages: seq<Message>, events: seq<Event>, e: Event, sessionId: string, id: string, kind: PartKind, token: string)
    requires RowsOk(messages, events)
    requires forall other :: SliceOf(e, other) == if other == id then [Part(kind, token)] else []
    requires SessionOf(e.payload) == Some(sessionId)
    ensures RowsOk(UpsertAssistant(messages, e.sequence, sessionId, id, kind, token), events + [e])
  {
    var later := UpsertAssistant(messages, e.sequence, sessionId, id, kind, token);
    if HasAssistant(messages, id) {
      GrowAt(messages, id, kind, token);
      GrowStep(messages, events, e, later, id, kind, token);
    } else {
      NewRowStep(messages, events, e, Assistant(sessionId, e.sequence, id, [Part(kind, token)]), kind, token);
    }
  }

  lemma GrowStep(
    messages: seq<Message>, events: seq<Event>, e: Event, later: seq<Message>,
    id: string, kind: PartKind, token: string)
    requires RowsOk(messages, events) && HasAssistant(messages, id)
    requires forall other :: SliceOf(e, other) == if other == id then [Part(kind, token)] else []
    requires |later| == |messages|
    requires forall i :: 0 <= i < |messages| ==>
               later[i] == if messages[i].Assistant? && messages[i].messageId == id
                           then messages[i].(parts := AppendPart(messages[i].parts, kind, token)) else messages[i]
    ensures RowsOk(later, events + [e])
  {
    forall i | 0 <= i < |later| ensures RowOk(later[i], events + [e]) {
      if messages[i].Assistant? {
        if messages[i].messageId == id {
          RowGrows(messages[i], events, e, kind, token);
        } else {
          RowStays(messages[i], events, e);
        }
      }
    }
    forall other | Slices(events + [e], other) != [] ensures HasAssistant(later, other) {
      SlicesOfSnoc(events, e, other);
      RowIsStillThere(messages, later, other);
    }
  }

  lemma RowIsStillThere(messages: seq<Message>, later: seq<Message>, id: string)
    requires HasAssistant(messages, id) && |messages| <= |later|
    requires forall i :: 0 <= i < |messages| && messages[i].Assistant? ==>
               later[i].Assistant? && later[i].messageId == messages[i].messageId
    ensures HasAssistant(later, id)
  {
    var i :| 0 <= i < |messages| && messages[i].Assistant? && messages[i].messageId == id;
    assert later[i].Assistant? && later[i].messageId == id;
  }

  lemma NewRowStep(messages: seq<Message>, events: seq<Event>, e: Event, row: Message, kind: PartKind, token: string)
    requires RowsOk(messages, events) && row.Assistant? && !HasAssistant(messages, row.messageId)
    requires forall other :: SliceOf(e, other) == if other == row.messageId then [Part(kind, token)] else []
    requires row.sequence == e.sequence && row.parts == [Part(kind, token)]
    requires Some(row.sessionId) == SessionOf(e.payload)
    ensures RowsOk(messages + [row], events + [e])
  {
    var later := messages + [row];
    RowStarts(row, events, e, kind, token);
    forall i | 0 <= i < |messages| ensures RowOk(later[i], events + [e]) {
      if messages[i].Assistant? {
        assert messages[i].messageId != row.messageId;
        RowStays(messages[i], events, e);
      }
    }
    forall other | Slices(events + [e], other) != [] ensures HasAssistant(later, other) {
      SlicesOfSnoc(events, e, other);
      HasAssistantOfSnoc(messages, row, other);
    }
  }

  lemma RowsStep(messages: seq<Message>, events: seq<Event>, e: Event)
    requires RowsOk(messages, events)
    ensures RowsOk(MessagesAfter(messages, e), events + [e])
  {
    match e.payload
    case MessageSent(_, _, _) => UserStep(messages, events, e);
    case TokenAppended(sessionId, id, token) => SliceStep(messages, events, e, sessionId, id, Text, token);
    case ThoughtAppended(sessionId, id, token) => SliceStep(messages, events, e, sessionId, id, Thought, token);
    case _ => QuietStep(messages, events, e);
  }

  lemma OrderedStep(messages: seq<Message>, e: Event, bound: nat)
    requires DistinctAssistants(messages) && Ordered(messages, bound) && bound < e.sequence
    ensures Ordered(MessagesAfter(messages, e), e.sequence)
  {
    if e.payload.TokenAppended? || e.payload.ThoughtAppended? {
      var id, kind := e.payload.messageId, if e.payload.TokenAppended? then Text else Thought;
      if HasAssistant(messages, id) {
        GrowKeepsSequences(messages, id, kind, e.payload.token);
      }
    }
  }

  lemma GrowKeepsSequences(messages: seq<Message>, id: string, kind: PartKind, token: string)
    requires DistinctAssistants(messages)
    ensures |GrowAssistant(messages, id, kind, token)| == |messages|
    ensures forall i :: 0 <= i < |messages| ==>
      GrowAssistant(messages, id, kind, token)[i].sequence == messages[i].sequence
  {
    GrowAt(messages, id, kind, token);
  }

  // ----- runs -----

  lemma {:induction false} RunRows(from: nat, events: seq<Event>)
    ensures RowsOk(Fold(Empty(from), events).messages, Admitted(from, None, events))
    ensures Ordered(Fold(Empty(from), events).messages, Fold(Empty(from), events).snapshotSequence)
  {
    if events != [] {
      var front, e := events[..|events| - 1], events[|events| - 1];
      RunRows(from, front);
      RunRowsStep(from, front, e);
      RunOrderedStep(from, front, e);
      assert events == front + [e];
    } else {
      NoSlices();
    }
  }

  lemma NoSlices()
    ensures RowsOk([], [])
  {
  }

  lemma RunRowsStep(from: nat, front: seq<Event>, e: Event)
    requires RowsOk(Fold(Empty(from), front).messages, Admitted(from, None, front))
    ensures RowsOk(Fold(Empty(from), front + [e]).messages, Admitted(from, None, front + [e]))
  {
    FoldStep(Empty(from), front, e);
    AdmittedStep(from, None, front, e);
    if Admits(from, None, front, e) {
      RowsStep(Fold(Empty(from), front).messages, Admitted(from, None, front), e);
    } else {
      assert Admitted(from, None, front) + [] == Admitted(from, None, front);
    }
  }

  lemma RunOrderedStep(from: nat, front: seq<Event>, e: Event)
    requires DistinctAssistants(Fold(Empty(from), front).messages)
    requires Ordered(Fold(Empty(from), front).messages, Fold(Empty(from), front).snapshotSequence)
    ensures Ordered(Fold(Empty(from), front + [e]).messages, Fold(Empty(from), front + [e]).snapshotSequence)
  {
    var f := Fold(Empty(from), front);
    FoldStep(Empty(from), front, e);
    FoldWatermark(Empty(from), front);
    if Admits(from, None, front, e) {
      OrderedStep(f.messages, e, f.snapshotSequence);
    } else {
      WatermarkGrows(Empty(from), front, e);
    }
  }

  lemma WatermarkGrows(s: Snapshot, front: seq<Event>, e: Event)
    ensures Fold(s, front).snapshotSequence <= Fold(s, front + [e]).snapshotSequence
  {
    FoldOfSnoc(s, front, e);
  }

  /**
   * In every run each assistant row holds the merged, in-order slices of its message, no two
   * neighbouring parts share a kind, its reply is the concatenation of its text slices, and the
   * rows are strictly ordered by the sequence of their first event.
   */
  lemma AssistantRowsAreFaithful(from: nat, events: seq<Event>, i: nat)
    requires i < |Fold(Empty(from), events).messages| && Fold(Empty(from), events).messages[i].Assistant?
    ensures var row := Fold(Empty(from), events).messages[i];
            var slices := Slices(Admitted(from, None, events), row.messageId);
            && row.parts == MergeRuns(slices)
            && Alternates(row.parts)
            && Flatten(row.parts) == Flatten(slices)
            && ReplyText(row.parts) == ReplyText(slices)
            && row.sequence == FirstSliceAt(Admitted(from, None, events), row.messageId)
            && Some(row.sessionId) == FirstSliceOf(Admitted(from, None, events), row.messageId)
    ensures forall j :: 0 <= j < i ==>
              Fold(Empty(from), events).messages[j].sequence < Fold(Empty(from), events).messages[i].sequence
  {
    RunRows(from, events);
    var messages := Fold(Empty(from), events).messages;
    assert RowOk(messages[i], Admitted(from, None, events));
    var slices := Slices(Admitted(from, None, events), messages[i].messageId);
    MergeRunsShape(slices);
    MergeRunsKeepsText(slices);
    MergeRunsKeepsReply(slices);
  }

  /** A message whose slices were admitted has a row. */
  lemma SlicesHaveARow(from: nat, events: seq<Event>, messageId: string)
    ensures HasAssistant(Fold(Empty(from), events).messages, messageId)
       <==> Slices(Admitted(from, None, events), messageId) != []
  {
    RunRows(from, events);
    var messages := Fold(Empty(from), events).messages;
    if HasAssistant(messages, messageId) {
      var i :| 0 <= i < |messages| && messages[i].Assistant? && messages[i].messageId == messageId;
      assert RowOk(messages[i], Admitted(from, None, events));
    }
  }
}
