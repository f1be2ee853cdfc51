/** Tool rows and pending approvals of a folded session (packages/contracts/src/sessionSnapshot.ts). */
module SessionActivities {
  import opened Wrappers
  import opened SessionSnapshot

  // ----- tool rows -----

  predicate Observes(e: Event, id: string) {
    e.payload.ToolCallObserved? && e.payload.activityId == id
  }

  /** The last event that observed the activity. */
  ghost function LastObserved(events: seq<Event>, id: string): Option<Event> {
    if events == [] then None
    else if Observes(events[|events| - 1], id) then Some(events[|events| - 1])
    else LastObserved(events[..|events| - 1], id)
  }

  /** The latest output any event reported for the activity. */
  ghost function LatestOutput(events: seq<Event>, id: string): Option<string> {
    if events == [] then None
    else
      var e := events[|events| - 1];
      if Observes(e, id) && e.payload.output.Some? then e.payload.output
      else LatestOutput(events[..|events| - 1], id)
  }

  ghost function RowFor(events: seq<Event>, id: string): Option<Activity> {
    match LastObserved(events, id)
    case None => None
    case Some(e) =>
      if !e.payload.ToolCallObserved? then None
      else
        var p := e.payload;
        Some(Activity(id, p.sessionId, e.sequence, p.activityStatus, p.title,
                      p.path, p.toolCallId, LatestOutput(events, id)))
  }

  ghost predicate ActivitiesOk(activities: seq<Activity>, events: seq<Event>) {
    && (forall id :: FindActivity(activities, id) == RowFor(events, id))
    && (forall i, j :: 0 <= i < j < |activities| ==> activities[i].activityId != activities[j].activityId)
  }

  lemma {:induction false} WithoutActivityShape(activities: seq<Activity>, id: string, other: string)
    ensures FindActivity(WithoutActivity(activities, id), other)
         == if other == id then None else FindActivity(activities, other)
  {
    if activities == [] {
    } else {
      WithoutActivityShape(activities[1..], id, other);
      var rest := WithoutActivity(activities[1..], id);
      if activities[0].activityId != id {
        assert ([activities[0]] + rest)[1..] == rest;
      } else {
        assert [] + rest == rest;
      }
    }
  }

  lemma {:induction false} FoundOrNot(activities: seq<Activity>, id: string)
    ensures FindActivity(activities, id) == None
       <==> forall i :: 0 <= i < |activities| ==> activities[i].activityId != id
  {
    if activities == [] {
    } else {
      FoundOrNot(activities[1..], id);
      assert activities == [activities[0]] + activities[1..];
    }
  }

  lemma {:induction false} WithoutActivityDistinct(activities: seq<Activity>, id: string)
    requires forall i, j :: 0 <= i < j < |activities| ==> activities[i].activityId != activities[j].activityId
    ensures var r := WithoutActivity(activities, id);
            forall i, j :: 0 <= i < j < |r| ==> r[i].activityId != r[j].activityId
  {
    if activities == [] {
    } else {
      var first, rest := activities[0], activities[1..];
      forall i, j | 0 <= i < j < |rest| ensures rest[i].activityId != rest[j].activityId {
        assert rest[i] == activities[i + 1] && rest[j] == activities[j + 1];
      }
      WithoutActivityDistinct(rest, id);
      FoundOrNot(rest, first.activityId);
      WithoutActivityShape(rest, id, first.activityId);
      FoundOrNot(WithoutActivity(rest, id), first.activityId);
    }
  }

  lemma {:induction false} FindInSnoc(activities: seq<Activity>, row: Activity, id: string)
    ensures FindActivity(activities + [row], id)
         == if FindActivity(activities, id).Some? then FindActivity(activities, id)
            else if row.activityId == id then Some(row) else None
  {
    if activities == [] {
      assert [row][1..] == [];
    } else {
      assert (activities + [row])[1..] == activities[1..] + [row];
      FindInSnoc(activities[1..], row, id);
    }
  }

  lemma ObservedOfSnoc(events: seq<Event>, e: Event, id: string)
    ensures LastObserved(events + [e], id) == if Observes(e, id) then Some(e) else LastObserved(events, id)
    ensures LatestOutput(events + [e], id)
         == if Observes(e, id) && e.payload.output.Some? then e.payload.output else LatestOutput(events, id)
  {
    assert (events + [e])[..|events|] == events;
  }

  lemma {:induction false} UnobservedHasNoOutput(events: seq<Event>, id: string)
    ensures LastObserved(events, id) == None ==> LatestOutput(events, id) == None
    ensures LastObserved(events, id).Some? ==> Observes(LastObserved(events, id).value, id)
  {
    if events == [] {
    } else {
      UnobservedHasNoOutput(events[..|events| - 1], id);
    }
  }

  lemma ObservationStep(activities: seq<Activity>, events: seq<Event>, e: Event)
    requires ActivitiesOk(activities, events) && e.payload.ToolCallObserved?
    ensures ActivitiesOk(ActivitiesAfter(activities, e), events + [e])
  {
    var id := e.payload.activityId;
    var without := WithoutActivity(activities, id);
    var row := ActivitiesAfter(activities, e)[|without|];
    WithoutActivityDistinct(activities, id);
    WithoutActivityShape(activities, id, id);
    FoundOrNot(without, id);
    forall other ensures FindActivity(without + [row], other) == RowFor(events + [e], other) {
      WithoutActivityShape(activities, id, other);
      FindInSnoc(without, row, other);
      ObservedOfSnoc(events, e, other);
      UnobservedHasNoOutput(events, other);
      assert FindActivity(activities, other) == RowFor(events, other);
    }
  }

  lemma QuietObservation(activities: seq<Activity>, events: seq<Event>, e: Event)
    requires ActivitiesOk(activities, events) && !e.payload.ToolCallObserved?
    ensures ActivitiesOk(activities, events + [e])
  {
    forall id ensures FindActivity(activities, id) == RowFor(events + [e], id) {
      ObservedOfSnoc(events, e, id);
    }
  }

  lemma {:induction false} RunActivities(from: nat, events: seq<Event>)
    ensures ActivitiesOk(Fold(Empty(from), events).activities, Admitted(from, None, events))
  {
    if events == [] {
    } else {
      var front, e := events[..|events| - 1], events[|events| - 1];
      var taken := Admitted(from, None, front);
      RunActivities(from, front);
      assert events == front + [e];
      AdmittedStep(from, None, front, e);
      FoldStep(Empty(from), front, e);
      if !Admits(from, None, front, e) {
        assert taken + [] == taken;
      } else if e.payload.ToolCallObserved? {
        ObservationStep(Fold(Empty(from), front).activities, taken, e);
      } else {
        QuietObservation(Fold(Empty(from), front).activities, taken, e);
      }
    }
  }

  /** In every run the row of a tool call is its last observation with the latest output any observation carried. */
  lemma ToolRowIsLatest(from: nat, events: seq<Event>, id: string)
    ensures FindActivity(Fold(Empty(from), events).activities, id) == RowFor(Admitted(from, None, events), id)
  {
    RunActivities(from, events);
  }

  /** The latest output wins, not the first one, although the source's comment says so. */
  lemma FirstOutputDoesNotWin(activities: seq<Activity>, first: Event, second: Event)
    requires first.payload.ToolCallObserved? && second.payload.ToolCallObserved?
    requires first.payload.activityId == second.payload.activityId
    requires first.payload.output.Some? && second.payload.output.Some?
    ensures var rows := ActivitiesAfter(ActivitiesAfter(activities, first), second);
            rows[|rows| - 1].output == second.payload.output
  {
  }

  // ----- pending approvals -----

  predicate Mentions(e: Event, id: string) {
    (e.payload.ApprovalRequested? || e.payload.InteractionReplied?) && e.payload.approvalRequestId == id
  }

  /** The request still waiting for a reply: the last event about `id` is a request. */
  ghost function Waiting(events: seq<Event>, id: string): Option<Approval> {
    if events == [] then None
    else
      var e := events[|events| - 1];
      if !Mentions(e, id) then Waiting(events[..|events| - 1], id)
      else if e.payload.ApprovalRequested? then Some(Approval(id, e.payload.sessionId, e.sequence, e.payload.title))
      else None
  }

  ghost function FindApproval(approvals: seq<Approval>, id: string): Option<Approval> {
    if approvals == [] then None
    else if approvals[0].approvalRequestId == id then Some(approvals[0])
    else FindApproval(approvals[1..], id)
  }

  lemma {:induction false} WithoutApprovalShape(approvals: seq<Approval>, id: string, other: string)
    ensures FindApproval(WithoutApproval(approvals, id), other)
         == if other == id then None else FindApproval(approvals, other)
  {
    if approvals == [] {
    } else {
      WithoutApprovalShape(approvals[1..], id, other);
      var rest := WithoutApproval(approvals[1..], id);
      if approvals[0].approvalRequestId != id {
        assert ([approvals[0]] + rest)[1..] == rest;
      } else {
        assert [] + rest == rest;
      }
    }
  }

  lemma {:induction false} FindApprovalInSnoc(approvals: seq<Approval>, row: Approval, id: string)
    ensures FindApproval(approvals + [row], id)
         == if FindApproval(approvals, id).Some? then FindApproval(approvals, id)
            else if row.approvalRequestId == id then Some(row) else None
  {
    if approvals == [] {
      assert [row][1..] == [];
    } else {
      assert (approvals + [row])[1..] == approvals[1..] + [row];
      FindApprovalInSnoc(approvals[1..], row, id);
    }
  }

  lemma ApprovalStep(approvals: seq<Approval>, events: seq<Event>, e: Event, id: string)
    requires FindApproval(approvals, id) == Waiting(events, id)
    ensures FindApproval(ApprovalsAfter(approvals, e), id) == Waiting(events + [e], id)
  {
    assert (events + [e])[..|events|] == events;
    match e.payload
    case ApprovalRequested(sessionId, asked, title) =>
      WithoutApprovalShape(approvals, asked, id);
      FindApprovalInSnoc(WithoutApproval(approvals, asked), Approval(asked, sessionId, e.sequence, title), id);
    case InteractionReplied(_, answered) =>
      WithoutApprovalShape(approvals, answered, id);
    case _ =>
  }

  /** In every run an approval is pending exactly while its last event is a request. */
  lemma {:induction false} PendingIsUnanswered(from: nat, events: seq<Event>, id: string)
    ensures FindApproval(Fold(Empty(from), events).pendingApprovals, id) == Waiting(Admitted(from, None, events), id)
  {
    if events == [] {
    } else {
      var front, e := events[..|events| - 1], events[|events| - 1];
      var taken := Admitted(from, None, front);
      PendingIsUnanswered(from, front, id);
      assert events == front + [e];
      AdmittedStep(from, None, front, e);
      FoldStep(Empty(from), front, e);
      if Admits(from, None, front, e) {
        ApprovalStep(Fold(Empty(from), front).pendingApprovals, taken, e, id);
      } else {
        assert taken + [] == taken;
      }
    }
  }

  // ----- both lists are in order of their latest event -----

  ghost predicate ActivitiesInOrder(activities: seq<Activity>, bound: nat) {
    && (forall i, j :: 0 <= i < j < |activities| ==> activities[i].sequence < activities[j].sequence)
    && (forall row :: row in activities ==> row.sequence <= bound)
  }

  ghost predicate ApprovalsInOrder(approvals: seq<Approval>, bound: nat) {
    && (forall i, j :: 0 <= i < j < |approvals| ==> approvals[i].sequence < approvals[j].sequence)
    && (forall row :: row in approvals ==> row.sequence <= bound)
  }

  lemma {:induction false} WithoutActivityMember(activities: seq<Activity>, id: string, row: Activity)
    ensures row in WithoutActivity(activities, id) ==> row in activities
  {
    if activities == [] {
    } else {
      WithoutActivityMember(activities[1..], id, row);
    }
  }

  lemma {:induction false} WithoutApprovalMember(approvals: seq<Approval>, id: string, row: Approval)
    ensures row in WithoutApproval(approvals, id) ==> row in approvals
  {
    if approvals == [] {
    } else {
      WithoutApprovalMember(approvals[1..], id, row);
    }
  }

  lemma FirstActivity(activities: seq<Activity>, bound: nat)
    requires activities != [] && ActivitiesInOrder(activities, bound)
    ensures ActivitiesInOrder(activities[1..], bound)
    ensures forall row :: row in activities[1..] ==> activities[0].sequence < row.sequence
  {
    var rest := activities[1..];
    assert forall i :: 0 <= i < |rest| ==> rest[i] == activities[i + 1];
  }

  lemma FirstApproval(approvals: seq<Approval>, bound: nat)
    requires approvals != [] && ApprovalsInOrder(approvals, bound)
    ensures ApprovalsInOrder(approvals[1..], bound)
    ensures forall row :: row in approvals[1..] ==> approvals[0].sequence < row.sequence
  {
    var rest := approvals[1..];
    assert forall i :: 0 <= i < |rest| ==> rest[i] == approvals[i + 1];
  }

  lemma ActivityInFront(row: Activity, rest: seq<Activity>, bound: nat)
    requires ActivitiesInOrder(rest, bound) && row.sequence <= bound
    requires forall other :: other in rest ==> row.sequence < other.sequence
    ensures ActivitiesInOrder([row] + rest, bound)
  {
  }

  lemma ApprovalInFront(row: Approval, rest: seq<Approval>, bound: nat)
    requires ApprovalsInOrder(rest, bound) && row.sequence <= bound
    requires forall other :: other in rest ==> row.sequence < other.sequence
    ensures ApprovalsInOrder([row] + rest, bound)
  {
  }

  lemma {:induction false} WithoutActivityInOrder(activities: seq<Activity>, id: string, bound: nat)
    requires ActivitiesInOrder(activities, bound)
    ensures ActivitiesInOrder(WithoutActivity(activities, id), bound)
  {
    if activities == [] {
    } else {
      var rest := WithoutActivity(activities[1..], id);
      FirstActivity(activities, bound);
      WithoutActivityInOrder(activities[1..], id, bound);
      forall row | row in rest ensures activities[0].sequence < row.sequence {
        WithoutActivityMember(activities[1..], id, row);
      }
      ActivityInFront(activities[0], rest, bound);
      assert [] + rest == rest;
    }
  }

  lemma {:induction false} WithoutApprovalInOrder(approvals: seq<Approval>, id: string, bound: nat)
    requires ApprovalsInOrder(approvals, bound)
    ensures ApprovalsInOrder(WithoutApproval(approvals, id), bound)
  {
    if approvals == [] {
    } else {
      var rest := WithoutApproval(approvals[1..], id);
      FirstApproval(approvals, bound);
      WithoutApprovalInOrder(approvals[1..], id, bound);
      forall row | row in rest ensures approvals[0].sequence < row.sequence {
        WithoutApprovalMember(approvals[1..], id, row);
      }
      ApprovalInFront(approvals[0], rest, bound);
      assert [] + rest == rest;
    }
  }

  lemma ActivityOrderStep(activities: seq<Activity>, e: Event, bound: nat)
    requires ActivitiesInOrder(activities, bound) && bound < e.sequence
    ensures ActivitiesInOrder(ActivitiesAfter(activities, e), e.sequence)
  {
    if e.payload.ToolCallObserved? {
      WithoutActivityInOrder(activities, e.payload.activityId, bound);
    }
  }

  lemma ApprovalOrderStep(approvals: seq<Approval>, e: Event, bound: nat)
    requires ApprovalsInOrder(approvals, bound) && bound < e.sequence
    ensures ApprovalsInOrder(ApprovalsAfter(approvals, e), e.sequence)
  {
    if e.payload.ApprovalRequested? || e.payload.InteractionReplied? {
      WithoutApprovalInOrder(approvals, e.payload.approvalRequestId, bound);
    }
  }

  /** In every run activities and pending approvals are listed in the order of their latest events. */
  lemma {:induction false} ListsAreInOrder(from: nat, events: seq<Event>)
    ensures var s := Fold(Empty(from), events);
      ActivitiesInOrder(s.activities, s.snapshotSequence) && ApprovalsInOrder(s.pendingApprovals, s.snapshotSequence)
  {
    if events == [] {
    } else {
      var s, e := Fold(Empty(from), events[..|events| - 1]), events[|events| - 1];
      ListsAreInOrder(from, events[..|events| - 1]);
      ApplyStep(s, e);
      if Takes(s, e) {
        ActivityOrderStep(s.activities, e, s.snapshotSequence);
        ApprovalOrderStep(s.pendingApprovals, e, s.snapshotSequence);
      }
    }
  }
}
