/** Request correlation (packages/harness/src/correlate.ts): which exchange each response and notification goes to. */
module Correlator {
  import opened Wrappers
  import opened Decimal
  import opened Json

  // ----- the code -----

  datatype RequestId = Number(value: int) | Text(text: string)

  function RenderInt(n: int): string {
    if n < 0 then "-" + Render(-n) else Render(n)
  }

  function RequestIdKey(id: RequestId): string {
    match id
    case Number(n) => "n:" + RenderInt(n)
    case Text(s) => "s:" + s
  }

  datatype OpenExchange = OpenExchange(id: RequestId, command: string, payload: Json, notifications: seq<Json>)

  datatype Completed = Completed(command: string, payload: Json, response: Json, notifications: seq<Json>)

  datatype State = State(openOrder: seq<string>, open: map<string, OpenExchange>)

  const EMPTY_STATE: State := State([], map[])

  /** A line with what the decoders made of it; `Malformed` is a line that fails to decode. */
  datatype Line =
    | Request(id: RequestId, command: string, payload: Json)
    | FromSidecar(json: Json, asSuccess: Option<RequestId>, asFailure: Option<Option<RequestId>>, asNotification: bool)
    | Malformed

  function Without(order: seq<string>, key: string): seq<string> {
    if order == [] then []
    else Without(order[..|order| - 1], key) + (if order[|order| - 1] == key then [] else [order[|order| - 1]])
  }

  function Opened(s: State, id: RequestId, command: string, payload: Json): State {
    var key := RequestIdKey(id);
    State(s.openOrder + [key], s.open[key := OpenExchange(id, command, payload, [])])
  }

  function Answered(s: State, key: string, response: Json): (Option<Completed>, State) {
    if key !in s.open then (None, s)
    else
      var e := s.open[key];
      (Some(Completed(e.command, e.payload, response, e.notifications)),
       State(Without(s.openOrder, key), s.open - {key}))
  }

  function Notified(s: State, notification: Json): State {
    if s.openOrder == [] || s.openOrder[0] !in s.open then s
    else
      var oldest := s.openOrder[0];
      var e := s.open[oldest];
      s.(open := s.open[oldest := e.(notifications := e.notifications + [notification])])
  }

  function FromSidecarIngested(s: State, line: Line): (Option<Completed>, State)
    requires line.FromSidecar?
  {
    if line.asSuccess.Some? then Answered(s, RequestIdKey(line.asSuccess.value), line.json)
    else if line.asFailure.Some? && line.asFailure.value.Some? then
      Answered(s, RequestIdKey(line.asFailure.value.value), line.json)
    else if line.asNotification then (None, Notified(s, line.json))
    else (None, s)
  }

  function Next(s: State, line: Line): (Option<Completed>, State) {
    match line
    case Request(id, command, payload) => (None, Opened(s, id, command, payload))
    case FromSidecar(_, _, _, _) => FromSidecarIngested(s, line)
    case Malformed => (None, s)
  }

  /** The Ref the two ingest functions share; each of its updates is one atomic step. */
  class Correlator {
    var current: State

    constructor ()
      ensures current == EMPTY_STATE
    {
      current := EMPTY_STATE;
    }

    method IngestAppLine(line: Line)
      requires line.Request? || line.Malformed?
      modifies this
      ensures current == Next(old(current), line).1
    {
      if line.Malformed? {
        return;
      }
      var key := RequestIdKey(line.id);
      current := State(current.openOrder + [key],
                       current.open[key := OpenExchange(line.id, line.command, line.payload, [])]);
    }

    method CompleteExchange(key: string, response: Json) returns (completed: Option<Completed>)
      modifies this
      ensures (completed, current) == Answered(old(current), key, response)
    {
      if key !in current.open {
        return None;
      }
      var open := current.open[key];
      completed := Some(Completed(open.command, open.payload, response, open.notifications));
      current := State(Without(current.openOrder, key), current.open - {key});
    }

    method AppendNotification(notification: Json)
      modifies this
      ensures current == Notified(old(current), notification)
    {
      if current.openOrder == [] {
        return;
      }
      var oldest := current.openOrder[0];
      if oldest !in current.open {
        return;
      }
      var open := current.open[oldest];
      current := State(current.openOrder,
                       current.open[oldest := open.(notifications := open.notifications + [notification])]);
    }

    method IngestSidecarLine(line: Line) returns (completed: Option<Completed>)
      requires line.FromSidecar? || line.Malformed?
      modifies this
      ensures (completed, current) == Next(old(current), line)
    {
      if line.Malformed? {
        return None;
      }
      if line.asSuccess.Some? {
        completed := CompleteExchange(RequestIdKey(line.asSuccess.value), line.json);
        return;
      }
      if line.asFailure.Some? && line.asFailure.value.Some? {
        completed := CompleteExchange(RequestIdKey(line.asFailure.value.value), line.json);
        return;
      }
      if line.asNotification {
        AppendNotification(line.json);
      }
      return None;
    }
  }

  // ----- keys -----

  lemma KeysAreInjective(a: RequestId, b: RequestId)
    ensures RequestIdKey(a) == RequestIdKey(b) <==> a == b
  {
    if RequestIdKey(a) == RequestIdKey(b) {
      assert RequestIdKey(a)[0] == RequestIdKey(b)[0];
      assert RequestIdKey(a)[2..] == RequestIdKey(b)[2..];
      if a.Number? {
        IntsRenderDifferently(a.value, b.value);
      }
    }
  }

  lemma IntsRenderDifferently(m: int, n: int)
    requires RenderInt(m) == RenderInt(n)
    ensures m == n
  {
    ValueOfRender(if m < 0 then -m else m);
    ValueOfRender(if n < 0 then -n else n);
    assert RenderInt(m)[0] == RenderInt(n)[0];
    if m < 0 {
      assert RenderInt(m)[1..] == Render(-m) && RenderInt(n)[1..] == Render(-n);
    }
  }

  // ----- every run: the order and the map hold the same keys -----

  function StateAfter(run: seq<Line>, n: nat): State
    requires n <= |run|
  {
    if n == 0 then EMPTY_STATE else Next(StateAfter(run, n - 1), run[n - 1]).1
  }

  ghost predicate KeysMatch(s: State) {
    forall k :: k in s.openOrder <==> k in s.open
  }

  lemma {:induction false} WithoutHolds(order: seq<string>, key: string, k: string)
    ensures k in Without(order, key) <==> k in order && k != key
  {
    if order == [] {
    } else {
      WithoutHolds(order[..|order| - 1], key, k);
      assert order == order[..|order| - 1] + [order[|order| - 1]];
    }
  }

  lemma StepKeepsKeys(s: State, line: Line)
    requires KeysMatch(s)
    ensures KeysMatch(Next(s, line).1)
  {
    forall key, k ensures k in Without(s.openOrder, key) <==> k in s.openOrder && k != key {
      WithoutHolds(s.openOrder, key, k);
    }
  }

  lemma {:induction false} OrderAndMapAgree(run: seq<Line>, n: nat)
    requires n <= |run|
    ensures KeysMatch(StateAfter(run, n))
  {
    if n == 0 {
    } else {
      OrderAndMapAgree(run, n - 1);
      StepKeepsKeys(StateAfter(run, n - 1), run[n - 1]);
    }
  }

  // ----- the reference: who owns what, read off the run alone -----

  function KeyOf(run: seq<Line>, i: nat): string {
    if i < |run| && run[i].Request? then RequestIdKey(run[i].id) else ""
  }

  /** The key a line answers, if it is a success, or a failure that names its request. */
  function AnswerKey(line: Line): Option<string> {
    if !line.FromSidecar? then None
    else if line.asSuccess.Some? then Some(RequestIdKey(line.asSuccess.value))
    else if line.asFailure.Some? && line.asFailure.value.Some? then Some(RequestIdKey(line.asFailure.value.value))
    else None
  }

  predicate IsNotification(line: Line) {
    line.FromSidecar? && AnswerKey(line).None? && line.asNotification
  }

  ghost predicate IsOpen(run: seq<Line>, i: nat, n: nat)
    requires n <= |run|
  {
    i < n && run[i].Request? && forall j :: i < j < n ==> AnswerKey(run[j]) != Some(KeyOf(run, i))
  }

  ghost predicate IsOldest(run: seq<Line>, i: nat, n: nat)
    requires n <= |run|
  {
    IsOpen(run, i, n) && forall j :: 0 <= j < i ==> !IsOpen(run, j, n)
  }

  /** The open requests, oldest first. */
  ghost function OpenList(run: seq<Line>, n: nat): seq<nat>
    requires n <= |run|
  {
    if n == 0 then []
    else if run[n - 1].Request? then OpenList(run, n - 1) + [n - 1]
    else if AnswerKey(run[n - 1]).Some? then Unanswered(run, OpenList(run, n - 1), AnswerKey(run[n - 1]).value)
    else OpenList(run, n - 1)
  }

  ghost function Unanswered(run: seq<Line>, requests: seq<nat>, key: string): seq<nat> {
    if requests == [] then []
    else
      Unanswered(run, requests[..|requests| - 1], key)
      + (if KeyOf(run, requests[|requests| - 1]) == key then [] else [requests[|requests| - 1]])
  }

  lemma {:induction false} UnansweredHolds(run: seq<Line>, requests: seq<nat>, key: string, i: nat)
    ensures i in Unanswered(run, requests, key) <==> i in requests && KeyOf(run, i) != key
  {
    if requests == [] {
    } else {
      UnansweredHolds(run, requests[..|requests| - 1], key, i);
      assert requests == requests[..|requests| - 1] + [requests[|requests| - 1]];
    }
  }

  ghost predicate Increasing(requests: seq<nat>) {
    forall a, b :: 0 <= a < b < |requests| ==> requests[a] < requests[b]
  }

  lemma {:induction false} UnansweredIncreases(run: seq<Line>, requests: seq<nat>, key: string)
    requires Increasing(requests)
    ensures Increasing(Unanswered(run, requests, key))
  {
    if requests == [] {
    } else {
      var before := requests[..|requests| - 1];
      UnansweredIncreases(run, before, key);
      var kept := Unanswered(run, before, key);
      forall a | 0 <= a < |kept| ensures kept[a] < requests[|requests| - 1] {
        UnansweredHolds(run, before, key, kept[a]);
      }
    }
  }

  /** The list holds exactly the open requests. */
  lemma {:induction false} OpenListMeaning(run: seq<Line>, n: nat, i: nat)
    requires n <= |run|
    ensures i in OpenList(run, n) <==> IsOpen(run, i, n)
  {
    if n == 0 {
    } else {
      OpenListMeaning(run, n - 1, i);
      OpenStep(run, i, n);
      if AnswerKey(run[n - 1]).Some? {
        UnansweredHolds(run, OpenList(run, n - 1), AnswerKey(run[n - 1]).value, i);
      }
    }
  }

  /** It lists them in order of arrival. */
  lemma {:induction false} OpenListIncreases(run: seq<Line>, n: nat)
    requires n <= |run|
    ensures Increasing(OpenList(run, n))
  {
    if n == 0 {
    } else {
      OpenListIncreases(run, n - 1);
      var before := OpenList(run, n - 1);
      if run[n - 1].Request? {
        forall a | 0 <= a < |before| ensures before[a] < n - 1 {
          OpenListMeaning(run, n - 1, before[a]);
        }
      } else if AnswerKey(run[n - 1]).Some? {
        UnansweredIncreases(run, before, AnswerKey(run[n - 1]).value);
      }
    }
  }

  ghost predicate OpensOrStays(run: seq<Line>, i: nat, n: nat)
    requires 0 < n <= |run|
  {
    || (i == n - 1 && run[i].Request?)
    || (IsOpen(run, i, n - 1) && AnswerKey(run[n - 1]) != Some(KeyOf(run, i)))
  }

  lemma OpenStep(run: seq<Line>, i: nat, n: nat)
    requires 0 < n <= |run|
    ensures IsOpen(run, i, n) <==> OpensOrStays(run, i, n)
  {
  }

  ghost function Oldest(run: seq<Line>, n: nat): Option<nat>
    requires n <= |run|
  {
    if OpenList(run, n) == [] then None else Some(OpenList(run, n)[0])
  }

  lemma OldestMeaning(run: seq<Line>, i: nat, n: nat)
    requires n <= |run|
    ensures Oldest(run, n) == Some(i) <==> IsOldest(run, i, n)
  {
    var list := OpenList(run, n);
    OpenListIncreases(run, n);
    OpenListMeaning(run, n, i);
    if list != [] {
      OpenListMeaning(run, n, list[0]);
      forall j | 0 <= j < list[0] ensures !IsOpen(run, j, n) {
        OpenListMeaning(run, n, j);
      }
    }
  }

  /** The latest request with a key, unless it has been answered. */
  ghost function Current(run: seq<Line>, n: nat, key: string): (r: Option<nat>)
    requires n <= |run|
    ensures r.Some? ==> r.value < n && run[r.value].Request? && KeyOf(run, r.value) == key
  {
    if n == 0 then None
    else if run[n - 1].Request? && KeyOf(run, n - 1) == key then Some(n - 1)
    else if AnswerKey(run[n - 1]) == Some(key) then None
    else Current(run, n - 1, key)
  }

  ghost predicate Superseded(run: seq<Line>, i: nat, n: nat)
    requires n <= |run|
  {
    exists j :: i < j < n && run[j].Request? && KeyOf(run, j) == KeyOf(run, i)
  }

  /** It is the open request with that key that no later request has replaced. */
  lemma {:induction false} CurrentMeaning(run: seq<Line>, i: nat, n: nat)
    requires n <= |run| && i < |run| && run[i].Request?
    ensures Current(run, n, KeyOf(run, i)) == Some(i) <==> IsOpen(run, i, n) && !Superseded(run, i, n)
  {
    if n == 0 {
    } else if i >= n - 1 {
    } else {
      CurrentMeaning(run, i, n - 1);
      OpenStep(run, i, n);
      SupersededStep(run, i, n);
    }
  }

  lemma SupersededStep(run: seq<Line>, i: nat, n: nat)
    requires 0 < n <= |run| && i < n - 1
    ensures Superseded(run, i, n)
       <==> Superseded(run, i, n - 1) || (run[n - 1].Request? && KeyOf(run, n - 1) == KeyOf(run, i))
  {
  }

  /** The request whose exchange takes the next notification: the current one with the oldest open request's key. */
  ghost function Holder(run: seq<Line>, n: nat): Option<nat>
    requires n <= |run|
  {
    if Oldest(run, n) == None then None else Current(run, n, KeyOf(run, Oldest(run, n).value))
  }

  /** The notifications that arrived before `n` while request `i` was the holder, in arrival order. */
  ghost function Owned(run: seq<Line>, i: nat, n: nat): seq<Json>
    requires n <= |run|
  {
    if n == 0 then []
    else if IsNotification(run[n - 1]) && Holder(run, n - 1) == Some(i) then Owned(run, i, n - 1) + [run[n - 1].json]
    else Owned(run, i, n - 1)
  }

  /** While ids in flight are distinct the holder is simply the oldest open request. */
  lemma HolderIsOldest(run: seq<Line>, i: nat, n: nat)
    requires n <= |run| && DistinctInFlight(run, n)
    ensures Holder(run, n) == Some(i) <==> IsOldest(run, i, n)
  {
    OldestMeaning(run, i, n);
    if Oldest(run, n).Some? {
      var o := Oldest(run, n).value;
      OldestMeaning(run, o, n);
      OpenIsRequest(run, o, n);
      CurrentMeaning(run, o, n);
      NotSuperseded(run, o, n);
    }
  }

  lemma OpenIsRequest(run: seq<Line>, i: nat, n: nat)
    requires n <= |run| && IsOpen(run, i, n)
    ensures i < |run| && run[i].Request?
  {
  }

  /** No request reuses the id of one still open. */
  ghost predicate DistinctInFlight(run: seq<Line>, n: nat)
    requires n <= |run|
  {
    forall i, j :: 0 <= i < j < n && run[j].Request? && IsOpen(run, i, j) ==> KeyOf(run, i) != KeyOf(run, j)
  }

  lemma NotSuperseded(run: seq<Line>, i: nat, n: nat)
    requires n <= |run| && DistinctInFlight(run, n) && IsOpen(run, i, n)
    ensures !Superseded(run, i, n)
  {
    if j :| i < j < n && run[j].Request? && KeyOf(run, j) == KeyOf(run, i) {
      assert IsOpen(run, i, j);
    }
  }

  // ----- the state is the reference -----

  ghost function KeysOf(run: seq<Line>, requests: seq<nat>): seq<string> {
    if requests == [] then []
    else KeysOf(run, requests[..|requests| - 1]) + [KeyOf(run, requests[|requests| - 1])]
  }

  lemma {:induction false} KeysOfUnanswered(run: seq<Line>, requests: seq<nat>, key: string)
    ensures KeysOf(run, Unanswered(run, requests, key)) == Without(KeysOf(run, requests), key)
  {
    if requests == [] {
    } else {
      var before := requests[..|requests| - 1];
      var last := requests[|requests| - 1];
      KeysOfUnanswered(run, before, key);
      KeysOfSnoc(run, Unanswered(run, before, key), last);
      WithoutSnoc(KeysOf(run, before), KeyOf(run, last), key);
      if KeyOf(run, last) == key {
        assert Unanswered(run, requests, key) == Unanswered(run, before, key);
      }
    }
  }

  lemma KeysOfSnoc(run: seq<Line>, requests: seq<nat>, i: nat)
    ensures KeysOf(run, requests + [i]) == KeysOf(run, requests) + [KeyOf(run, i)]
  {
    assert (requests + [i])[..|requests|] == requests;
  }

  lemma WithoutSnoc(order: seq<string>, last: string, key: string)
    ensures Without(order + [last], key) == Without(order, key) + (if last == key then [] else [last])
  {
    assert (order + [last])[..|order|] == order;
  }

  /** The exchange of request `i` as the run determines it. */
  ghost function Exchange(run: seq<Line>, i: nat, n: nat): OpenExchange
    requires i < n <= |run| && run[i].Request?
  {
    OpenExchange(run[i].id, run[i].command, run[i].payload, Owned(run, i, n))
  }

  /** The open map holds the current request of every key, with its exchange. */
  ghost predicate Holds(run: seq<Line>, n: nat, open: map<string, OpenExchange>)
    requires n <= |run|
  {
    forall k :: HoldsKey(run, n, open, k)
  }

  ghost predicate HoldsKey(run: seq<Line>, n: nat, open: map<string, OpenExchange>, k: string)
    requires n <= |run|
  {
    && (k in open <==> Current(run, n, k).Some?)
    && (k in open ==> open[k] == Exchange(run, Current(run, n, k).value, n))
  }

  ghost predicate Refines(run: seq<Line>, n: nat, s: State)
    requires n <= |run|
  {
    s.openOrder == KeysOf(run, OpenList(run, n)) && Holds(run, n, s.open)
  }

  lemma {:induction false} OwnedStartsEmpty(run: seq<Line>, i: nat, n: nat)
    requires n <= |run| && n <= i + 1
    ensures Owned(run, i, n) == []
  {
    if n == 0 {
    } else {
      OwnedStartsEmpty(run, i, n - 1);
    }
  }

  lemma RequestRefines(run: seq<Line>, n: nat, s: State, k: string)
    requires 0 < n <= |run| && HoldsKey(run, n - 1, s.open, k) && run[n - 1].Request?
    ensures HoldsKey(run, n, Next(s, run[n - 1]).1.open, k)
  {
    OwnedStartsEmpty(run, n - 1, n);
  }

  lemma AnswerRefines(run: seq<Line>, n: nat, s: State, key: string, k: string)
    requires 0 < n <= |run| && HoldsKey(run, n - 1, s.open, k) && AnswerKey(run[n - 1]) == Some(key)
    ensures HoldsKey(run, n, s.open - {key}, k)
  {
  }

  lemma NotificationRefines(run: seq<Line>, n: nat, s: State, k: string)
    requires 0 < n <= |run| && Refines(run, n - 1, s) && KeysMatch(s) && IsNotification(run[n - 1])
    ensures HoldsKey(run, n, Notified(s, run[n - 1].json).open, k)
  {
    assert HoldsKey(run, n - 1, s.open, k);
    HeadIsHolder(run, n - 1, s);
    if s.openOrder != [] {
      assert HoldsKey(run, n - 1, s.open, s.openOrder[0]);
    }
  }

  /** The state's oldest key is the oldest open request's, and its exchange the holder's. */
  lemma HeadIsHolder(run: seq<Line>, n: nat, s: State)
    requires n <= |run| && Refines(run, n, s) && KeysMatch(s)
    ensures s.openOrder == [] <==> Holder(run, n) == None
    ensures s.openOrder != [] ==> Current(run, n, s.openOrder[0]) == Holder(run, n) && Holder(run, n).Some?
  {
    var list := OpenList(run, n);
    if list == [] {
    } else {
      FirstKey(run, list);
      assert s.openOrder[0] in s.openOrder;
      assert HoldsKey(run, n, s.open, s.openOrder[0]);
    }
  }

  lemma OtherRefines(run: seq<Line>, n: nat, s: State, k: string)
    requires 0 < n <= |run| && HoldsKey(run, n - 1, s.open, k)
    requires !run[n - 1].Request? && AnswerKey(run[n - 1]).None? && !IsNotification(run[n - 1])
    ensures HoldsKey(run, n, s.open, k)
  {
  }

  lemma {:induction false} FirstKey(run: seq<Line>, requests: seq<nat>)
    requires requests != []
    ensures KeysOf(run, requests) != [] && KeysOf(run, requests)[0] == KeyOf(run, requests[0])
  {
    if |requests| == 1 {
      assert KeysOf(run, requests[..0]) == [];
    } else {
      FirstKey(run, requests[..|requests| - 1]);
    }
  }

  lemma StepHolds(run: seq<Line>, n: nat, s: State)
    requires 0 < n <= |run| && Refines(run, n - 1, s) && KeysMatch(s)
    ensures Holds(run, n, Next(s, run[n - 1]).1.open)
  {
    var line := run[n - 1];
    if AnswerKey(line).Some? {
      AnswerRemoves(s, AnswerKey(line).value, line.json);
    }
    forall k ensures HoldsKey(run, n, Next(s, line).1.open, k) {
      assert HoldsKey(run, n - 1, s.open, k);
      if line.Request? {
        RequestRefines(run, n, s, k);
      } else if AnswerKey(line).Some? {
        AnswerRefines(run, n, s, AnswerKey(line).value, k);
      } else if IsNotification(line) {
        NotificationRefines(run, n, s, k);
      } else {
        OtherRefines(run, n, s, k);
      }
    }
  }

  lemma StepOrders(run: seq<Line>, n: nat, s: State)
    requires 0 < n <= |run| && Refines(run, n - 1, s) && KeysMatch(s)
    ensures Next(s, run[n - 1]).1.openOrder == KeysOf(run, OpenList(run, n))
  {
    var line := run[n - 1];
    if line.Request? {
      KeysOfSnoc(run, OpenList(run, n - 1), n - 1);
    } else if AnswerKey(line).Some? {
      AnswerRemoves(s, AnswerKey(line).value, line.json);
      KeysOfUnanswered(run, OpenList(run, n - 1), AnswerKey(line).value);
    }
  }

  /**
   * The correlator's state after any run is what the run determines: the open requests' keys oldest
   * first, and for each key the current request with its own command and payload and what it owns.
   */
  lemma {:induction false} StateIsReference(run: seq<Line>, n: nat)
    requires n <= |run|
    ensures Refines(run, n, StateAfter(run, n))
  {
    if n == 0 {
      assert KeysOf(run, []) == [];
    } else {
      StateIsReference(run, n - 1);
      OrderAndMapAgree(run, n - 1);
      StepHolds(run, n, StateAfter(run, n - 1));
      StepOrders(run, n, StateAfter(run, n - 1));
    }
  }

  lemma {:induction false} WithoutAbsent(order: seq<string>, key: string)
    requires key !in order
    ensures Without(order, key) == order
  {
    if order == [] {
    } else {
      var front, last := order[..|order| - 1], order[|order| - 1];
      assert order == front + [last];
      WithoutAbsent(front, key);
    }
  }

  /** Known or not, an answer leaves a state without its key. */
  lemma AnswerRemoves(s: State, key: string, response: Json)
    requires KeysMatch(s)
    ensures Answered(s, key, response).1 == State(Without(s.openOrder, key), s.open - {key})
  {
    if key !in s.open {
      WithoutAbsent(s.openOrder, key);
      assert s.open - {key} == s.open;
    }
  }

  // ----- what the lines return -----

  /** The request a line completes: the current one with the key it answers. */
  ghost function Completes(run: seq<Line>, j: nat): Option<nat>
    requires j < |run|
  {
    if AnswerKey(run[j]) == None then None else Current(run, j, AnswerKey(run[j]).value)
  }

  /** In every run, what a line returns is exactly the exchange of the request it completes. */
  lemma CompletionMeaning(run: seq<Line>, j: nat)
    requires j < |run|
    ensures var returned := Next(StateAfter(run, j), run[j]).0;
      match Completes(run, j)
      case None => returned == None
      case Some(i) => returned == Some(Completed(run[i].command, run[i].payload, run[j].json, Owned(run, i, j)))
  {
    StateIsReference(run, j);
    if AnswerKey(run[j]).Some? {
      assert HoldsKey(run, j, StateAfter(run, j).open, AnswerKey(run[j]).value);
    }
  }

  /** What the lines before `n` returned. */
  ghost function Returned(run: seq<Line>, n: nat): seq<Completed>
    requires n <= |run|
  {
    if n == 0 then []
    else
      match Next(StateAfter(run, n - 1), run[n - 1]).0
      case None => Returned(run, n - 1)
      case Some(c) => Returned(run, n - 1) + [c]
  }

  /** The requests they completed. */
  ghost function Served(run: seq<Line>, n: nat): seq<nat>
    requires n <= |run|
  {
    if n == 0 then []
    else
      match Completes(run, n - 1)
      case None => Served(run, n - 1)
      case Some(i) => Served(run, n - 1) + [i]
  }

  lemma {:induction false} ServedIsOver(run: seq<Line>, n: nat, i: nat)
    requires n <= |run| && i in Served(run, n)
    ensures i < n && run[i].Request? && Current(run, n, KeyOf(run, i)) != Some(i)
  {
    if n == 0 {
    } else if i in Served(run, n - 1) {
      ServedIsOver(run, n - 1, i);
    } else {
      assert Completes(run, n - 1) == Some(i);
    }
  }

  lemma {:induction false} ServedAreDistinct(run: seq<Line>, n: nat)
    requires n <= |run|
    ensures forall x, y :: 0 <= x < y < |Served(run, n)| ==> Served(run, n)[x] != Served(run, n)[y]
  {
    if n == 0 {
    } else {
      var before := Served(run, n - 1);
      ServedAreDistinct(run, n - 1);
      if Completes(run, n - 1).Some? {
        forall x | 0 <= x < |before| ensures before[x] != Completes(run, n - 1).value {
          ServedIsOver(run, n - 1, before[x]);
        }
      }
    }
  }

  /** The lines that completed them. */
  ghost function Answering(run: seq<Line>, n: nat): seq<nat>
    requires n <= |run|
  {
    if n == 0 then []
    else
      match Completes(run, n - 1)
      case None => Answering(run, n - 1)
      case Some(_) => Answering(run, n - 1) + [n - 1]
  }

  /** `c` is the exchange of request `i` as it stood when line `j` answered it, with that answer. */
  ghost predicate IsExchangeOf(run: seq<Line>, i: nat, j: nat, c: Completed) {
    && i < j < |run|
    && run[i].Request?
    && Completes(run, j) == Some(i)
    && c == Completed(run[i].command, run[i].payload, run[j].json, Owned(run, i, j))
  }

  ghost predicate AreExchangesOf(
    run: seq<Line>, n: nat, served: seq<nat>, answering: seq<nat>, returned: seq<Completed>)
  {
    && |served| == |returned| == |answering|
    && forall x :: 0 <= x < |served| ==> answering[x] < n && IsExchangeOf(run, served[x], answering[x], returned[x])
  }

  lemma OneMoreExchange(
    run: seq<Line>, n: nat, served: seq<nat>, answering: seq<nat>, returned: seq<Completed>, i: nat, c: Completed)
    requires AreExchangesOf(run, n, served, answering, returned) && IsExchangeOf(run, i, n, c)
    ensures AreExchangesOf(run, n + 1, served + [i], answering + [n], returned + [c])
  {
  }

  lemma {:induction false} ReturnedAreServed(run: seq<Line>, n: nat)
    requires n <= |run|
    ensures AreExchangesOf(run, n, Served(run, n), Answering(run, n), Returned(run, n))
  {
    if n == 0 {
    } else {
      ReturnedAreServed(run, n - 1);
      CompletionMeaning(run, n - 1);
      if Completes(run, n - 1).Some? {
        var c := Next(StateAfter(run, n - 1), run[n - 1]).0.value;
        OneMoreExchange(run, n - 1, Served(run, n - 1), Answering(run, n - 1), Returned(run, n - 1),
                        Completes(run, n - 1).value, c);
      }
    }
  }

  /**
   * The completions returned are, one by one, the exchanges of different requests: command and payload
   * of the request, the answer, and the notifications the exchange had taken by then, in order of arrival.
   */
  lemma CompletesAtMostOnce(run: seq<Line>, n: nat)
    requires n <= |run|
    ensures AreExchangesOf(run, n, Served(run, n), Answering(run, n), Returned(run, n))
    ensures forall x, y :: 0 <= x < y < |Served(run, n)| ==> Served(run, n)[x] != Served(run, n)[y]
  {
    ReturnedAreServed(run, n);
    ServedAreDistinct(run, n);
  }
}
