/**
 * The scenario player (packages/qa-scenario/src/player.ts) as a state machine: every Ref
 * operation, queue operation, fork and interrupt is one atomic step of some fiber, and the
 * steps of all fibers and subscribers interleave freely. A recorded event is named by the
 * index of its step.
 */
module ScenarioPlayer {
  import opened Sequences
  import opened Wrappers

  datatype Event = Event(sequence: nat, body: string)

  // ----- state -----

  /** What a fiber does once it has emitted a step. */
  datatype After = Finish | DriveOn | SeekOn(target: nat)

  /** One atomic step; a fiber is the list of the steps it still has to take. */
  datatype Op =
    | SetMode(playing: bool)
    | StoreRate(rate: real)
    | StartIfPlaying
    | GetDriver
    | InterruptDriver(driver: nat)
    | ClearDriver
    | ForkDriver
    | SetDriver(driver: nat)
    | DriverLoop
    | Delay(index: nat)
    | StepAtCursor
    | SeekFrom(target: nat)
    | SeekLoop(cursor: nat, target: nat)
    | Append(index: nat, after: After)
    | GetSubscribers(index: nat, after: After)
    | Offers(index: nat, queues: seq<nat>, after: After)
    | SetCursor(next: nat, after: After)
    | CompleteDrained
    | GetSubscribersToEnd
    | EndQueues(queues: seq<nat>)
    | ClearSubscribers

  datatype Phase = Opened | Registered | Streaming

  /** `consumed` are the stream elements already filtered, in order. */
  datatype Subscriber = Subscriber(
    fromSequence: nat,
    phase: Phase,
    backlog: seq<nat>,
    queue: seq<nat>,
    ended: bool,
    consumed: seq<nat>,
    seen: nat,
    received: seq<Event>)

  datatype State = State(
    cursor: nat,
    rate: real,
    playing: bool,
    emitted: seq<nat>,
    subscribers: seq<nat>,
    driver: Option<nat>,
    drained: bool,
    fibers: map<nat, seq<Op>>,
    nextFiber: nat,
    queues: seq<Subscriber>)

  datatype Control =
    | Play
    | Pause
    | StepOnce
    | SeekTo(index: int)
    | SetRate(rate: real)
    | Shutdown

  datatype Action =
    | Call(control: Control)
    | Run(fiber: nat)
    | Abandon(fiber: nat)
    | OpenStream(fromSequence: nat)
    | Register(queue: nat)
    | ReadBacklog(queue: nat)
    | Pull(queue: nat)

  // ----- the code -----

  function Initial(rate: real): State {
    State(0, rate, false, [], [], None, false, map[], 0, [])
  }

  function ClampCursor(cursor: int, total: nat): nat {
    if cursor < 0 then 0 else if cursor > total then total else cursor
  }

  function Program(control: Control, total: nat): seq<Op> {
    match control
    case Play => [SetMode(true), GetDriver, ForkDriver]
    case Pause => [SetMode(false), GetDriver]
    case StepOnce => [SetMode(false), GetDriver, StepAtCursor]
    case SeekTo(index) => [SetMode(false), GetDriver, SeekFrom(ClampCursor(index + 1, total))]
    case SetRate(rate) => [StoreRate(rate), StartIfPlaying]
    case Shutdown => [GetDriver, GetSubscribersToEnd]
  }

  /** emitAt does nothing when there is no such step. */
  function EmitAt(index: nat, after: After, total: nat): seq<Op> {
    if index < total then [Append(index, after)] else []
  }

  function Continue(next: nat, after: After): seq<Op> {
    match after
    case Finish => []
    case DriveOn => [DriverLoop]
    case SeekOn(target) => [SeekLoop(next, target)]
  }

  function WithFiber(s: State, fiber: nat, ops: seq<Op>): State {
    s.(fibers := s.fibers[fiber := ops])
  }

  /** An offer to a queue that has ended is refused. */
  function Offer(q: Subscriber, index: nat): Subscriber {
    if q.ended then q else q.(queue := q.queue + [index])
  }

  function EndQueue(q: Subscriber): Subscriber {
    q.(ended := true)
  }

  /** The first remaining step of a fiber. */
  function RunOp(s: State, fiber: nat, total: nat): State
    requires fiber in s.fibers && s.fibers[fiber] != []
  {
    var rest := s.fibers[fiber][1..];
    match s.fibers[fiber][0]
    case SetMode(playing) => WithFiber(s.(playing := playing), fiber, rest)
    case StoreRate(rate) => WithFiber(s.(rate := rate), fiber, rest)
    case StartIfPlaying => WithFiber(s, fiber, (if s.playing then [GetDriver, ForkDriver] else []) + rest)
    case GetDriver =>
      (match s.driver
       case Some(driver) => WithFiber(s, fiber, [InterruptDriver(driver), ClearDriver] + rest)
       case None => WithFiber(s, fiber, rest))
    case InterruptDriver(driver) =>
      s.(fibers := s.fibers[fiber := rest] - {driver})
    case ClearDriver => WithFiber(s.(driver := None), fiber, rest)
    case ForkDriver =>
      WithFiber(
        s.(fibers := s.fibers[s.nextFiber := [DriverLoop]], nextFiber := s.nextFiber + 1),
        fiber, [SetDriver(s.nextFiber)] + rest)
    case SetDriver(driver) => WithFiber(s.(driver := Some(driver)), fiber, rest)
    case DriverLoop =>
      if s.cursor >= total then WithFiber(s, fiber, rest) else WithFiber(s, fiber, [Delay(s.cursor)] + rest)
    case Delay(index) => WithFiber(s, fiber, EmitAt(index, DriveOn, total) + rest)
    case StepAtCursor => WithFiber(s, fiber, EmitAt(s.cursor, Finish, total) + rest)
    case SeekFrom(target) => WithFiber(s, fiber, [SeekLoop(s.cursor, target)] + rest)
    case SeekLoop(cursor, target) =>
      WithFiber(s, fiber, (if cursor < target then EmitAt(cursor, SeekOn(target), total) else []) + rest)
    case Append(index, after) =>
      WithFiber(s.(emitted := s.emitted + [index]), fiber, [GetSubscribers(index, after)] + rest)
    case GetSubscribers(index, after) => WithFiber(s, fiber, [Offers(index, s.subscribers, after)] + rest)
    case Offers(index, queues, after) =>
      if queues == [] then WithFiber(s, fiber, [SetCursor(index + 1, after)] + rest)
      else if queues[0] < |s.queues| then
        WithFiber(
          s.(queues := s.queues[queues[0] := Offer(s.queues[queues[0]], index)]),
          fiber, [Offers(index, queues[1..], after)] + rest)
      else WithFiber(s, fiber, [Offers(index, queues[1..], after)] + rest)
    case SetCursor(next, after) =>
      WithFiber(
        s.(cursor := next), fiber,
        (if next >= total then [CompleteDrained] else []) + Continue(next, after) + rest)
    case CompleteDrained => WithFiber(s.(drained := true), fiber, rest)
    case GetSubscribersToEnd => WithFiber(s, fiber, [EndQueues(s.subscribers), ClearSubscribers] + rest)
    case EndQueues(queues) =>
      if queues == [] then WithFiber(s, fiber, rest)
      else if queues[0] < |s.queues| then
        WithFiber(
          s.(queues := s.queues[queues[0] := EndQueue(s.queues[queues[0]])]),
          fiber, [EndQueues(queues[1..])] + rest)
      else WithFiber(s, fiber, [EndQueues(queues[1..])] + rest)
    case ClearSubscribers => WithFiber(s.(subscribers := []), fiber, rest)
  }

  /** keepUnseen on the next element of backlog then queue. */
  function PullOne(steps: seq<Event>, q: Subscriber): Subscriber {
    if q.backlog != [] && q.backlog[0] < |steps| then
      Consume(steps, q.(backlog := q.backlog[1..]), q.backlog[0])
    else if q.backlog == [] && q.queue != [] && q.queue[0] < |steps| then
      Consume(steps, q.(queue := q.queue[1..]), q.queue[0])
    else q
  }

  function Consume(steps: seq<Event>, q: Subscriber, index: nat): Subscriber
    requires index < |steps|
  {
    var event := steps[index];
    var next := q.(consumed := q.consumed + [index]);
    if event.sequence > q.seen then next.(seen := event.sequence, received := q.received + [event]) else next
  }

  /** An action that is not enabled changes nothing. */
  function Next(steps: seq<Event>, s: State, action: Action): State {
    match action
    case Call(control) =>
      s.(fibers := s.fibers[s.nextFiber := Program(control, |steps|)], nextFiber := s.nextFiber + 1)
    case Run(fiber) =>
      if fiber in s.fibers && s.fibers[fiber] != [] then RunOp(s, fiber, |steps|) else s
    case Abandon(fiber) => s.(fibers := s.fibers - {fiber})
    case OpenStream(fromSequence) =>
      s.(queues := s.queues + [Subscriber(fromSequence, Opened, [], [], false, [], fromSequence, [])])
    case Register(q) =>
      if q < |s.queues| && s.queues[q].phase == Opened then
        s.(queues := s.queues[q := s.queues[q].(phase := Registered)], subscribers := s.subscribers + [q])
      else s
    case ReadBacklog(q) =>
      if q < |s.queues| && s.queues[q].phase == Registered then
        s.(queues := s.queues[q := s.queues[q].(phase := Streaming, backlog := s.emitted)])
      else s
    case Pull(q) =>
      if q < |s.queues| && s.queues[q].phase == Streaming then
        s.(queues := s.queues[q := PullOne(steps, s.queues[q])])
      else s
  }

  /** The state after a run, from the player just created. */
  function Execute(steps: seq<Event>, rate: real, actions: seq<Action>): State {
    if actions == [] then Initial(rate)
    else Next(steps, Execute(steps, rate, actions[..|actions| - 1]), actions[|actions| - 1])
  }

  // ----- what a stream of step indexes lets through -----

  /** One more than the highest index, 0 when there is none. */
  ghost function High(xs: seq<nat>): nat {
    if xs == [] then 0
    else
      var front := High(xs[..|xs| - 1]);
      var last := xs[|xs| - 1] + 1;
      if last > front then last else front
  }

  /** No index is ahead of all smaller ones: every index past 0 comes after its predecessor. */
  ghost predicate Gapless(xs: seq<nat>) {
    xs == [] || (Gapless(xs[..|xs| - 1]) && xs[|xs| - 1] <= High(xs[..|xs| - 1]))
  }

  ghost predicate Increasing(steps: seq<Event>) {
    forall i, j :: 0 <= i < j < |steps| ==> steps[i].sequence < steps[j].sequence
  }

  /** The steps a subscriber is promised: those past its `fromSequence`, in order. */
  ghost function Above(steps: seq<Event>, fromSequence: nat): seq<Event> {
    if steps == [] then []
    else
      Above(steps[..|steps| - 1], fromSequence)
      + if steps[|steps| - 1].sequence > fromSequence then [steps[|steps| - 1]] else []
  }

  ghost function SeenAfter(steps: seq<Event>, fromSequence: nat): nat {
    if steps == [] || steps[|steps| - 1].sequence <= fromSequence then fromSequence else steps[|steps| - 1].sequence
  }

  /** What keepUnseen has made of a gapless stream prefix. */
  ghost predicate Filtered(steps: seq<Event>, q: Subscriber) {
    && High(q.consumed) <= |steps|
    && q.received == Above(steps[..High(q.consumed)], q.fromSequence)
    && q.seen == SeenAfter(steps[..High(q.consumed)], q.fromSequence)
  }

  lemma HighOfSnoc(xs: seq<nat>, x: nat)
    ensures High(xs + [x]) == if x + 1 > High(xs) then x + 1 else High(xs)
    ensures Gapless(xs + [x]) <==> Gapless(xs) && x <= High(xs)
  {
    assert (xs + [x])[..|xs|] == xs;
  }

  lemma {:induction false} HighOfAppend(a: seq<nat>, b: seq<nat>)
    ensures High(a + b) == if High(a) > High(b) then High(a) else High(b)
    ensures Gapless(a + b) ==> Gapless(a)
  {
    if b == [] {
      assert a + b == a;
    } else {
      var n := |b| - 1;
      HighOfAppend(a, b[..n]);
      assert a + b == (a + b[..n]) + [b[n]];
      HighOfSnoc(a + b[..n], b[n]);
    }
  }

  lemma {:induction false} NothingBeyondHigh(xs: seq<nat>, k: nat)
    requires High(xs) <= k
    ensures k !in xs
  {
    if xs == [] {
    } else {
      NothingBeyondHigh(xs[..|xs| - 1], k);
      assert xs == xs[..|xs| - 1] + [xs[|xs| - 1]];
    }
  }

  /** A gapless stream holds everything behind its frontier. */
  lemma {:induction false} GaplessHolds(xs: seq<nat>, k: nat)
    requires Gapless(xs) && k < High(xs)
    ensures k in xs
  {
    if xs == [] {
    } else {
      var n := |xs| - 1;
      if k != xs[n] {
        GaplessHolds(xs[..n], k);
        assert xs == xs[..n] + [xs[n]];
      }
    }
  }

  /** Elements that are all behind the frontier leave a gapless stream gapless. */
  lemma {:induction false} GaplessBehind(a: seq<nat>, b: seq<nat>)
    requires Gapless(a) && High(b) <= High(a)
    ensures Gapless(a + b) && High(a + b) == High(a)
  {
    if b == [] {
      assert a + b == a;
    } else {
      var n := |b| - 1;
      GaplessBehind(a, b[..n]);
      assert a + b == (a + b[..n]) + [b[n]];
      HighOfSnoc(a + b[..n], b[n]);
    }
  }

  lemma OneMoreAbove(front: seq<Event>, e: Event, fromSequence: nat)
    ensures Above(front + [e], fromSequence)
         == Above(front, fromSequence) + if e.sequence > fromSequence then [e] else []
    ensures SeenAfter(front + [e], fromSequence) == if e.sequence > fromSequence then e.sequence else fromSequence
  {
    assert (front + [e])[..|front|] == front;
  }

  lemma SeenIsBehind(steps: seq<Event>, index: nat, fromSequence: nat)
    requires Increasing(steps) && index < |steps|
    ensures steps[index].sequence > SeenAfter(steps[..index], fromSequence) <==> steps[index].sequence > fromSequence
  {
    if index > 0 {
      assert steps[..index][index - 1] == steps[index - 1];
    }
  }

  lemma SeenIsAhead(steps: seq<Event>, h: nat, index: nat, fromSequence: nat)
    requires Increasing(steps) && index < h <= |steps|
    ensures steps[index].sequence <= SeenAfter(steps[..h], fromSequence)
  {
    assert steps[..h][h - 1] == steps[h - 1];
    assert index < h - 1 ==> steps[index].sequence < steps[h - 1].sequence;
  }

  /** One more stream element: the filter lets it through exactly when it moves the frontier past `fromSequence`. */
  lemma ConsumeKeepsFiltered(steps: seq<Event>, q: Subscriber, index: nat)
    requires Increasing(steps) && index < |steps|
    requires Filtered(steps, q) && index <= High(q.consumed)
    ensures Filtered(steps, Consume(steps, q, index))
  {
    HighOfSnoc(q.consumed, index);
    if index == High(q.consumed) {
      OneMoreAbove(steps[..index], steps[index], q.fromSequence);
      assert steps[..index + 1] == steps[..index] + [steps[index]];
      SeenIsBehind(steps, index, q.fromSequence);
    } else {
      SeenIsAhead(steps, High(q.consumed), index, q.fromSequence);
    }
  }

  // ----- the invariant -----

  /** Everything a subscriber has been or will be shown, as things stand. */
  ghost function Trace(emitted: seq<nat>, q: Subscriber): seq<nat> {
    if q.phase == Streaming then q.consumed + q.backlog + q.queue else emitted + q.queue
  }

  ghost function Reach(s: State, q: nat): nat
    requires q < |s.queues|
  {
    High(Trace(s.emitted, s.queues[q]))
  }

  /** Registered and neither ended nor cleared by a shutdown. */
  predicate Live(s: State, q: nat) {
    q in s.subscribers && q < |s.queues| && !s.queues[q].ended
  }

  /** All steps before `n` have been emitted and have reached every live subscriber. */
  ghost predicate Covered(s: State, n: nat) {
    && n <= High(s.emitted)
    && forall q :: 0 <= q < |s.queues| && Live(s, q) ==> n <= Reach(s, q)
  }

  ghost predicate OpOk(total: nat, s: State, op: Op) {
    match op
    case Delay(index) => Covered(s, index)
    case SeekLoop(cursor, _) => Covered(s, cursor)
    case Append(index, _) => index < total && Covered(s, index)
    case GetSubscribers(index, _) => index < High(s.emitted) && Covered(s, index)
    case Offers(index, queues, _) =>
      && index < High(s.emitted)
      && (forall q :: q in queues ==> q < |s.queues| && (s.queues[q].ended || index <= Reach(s, q)))
      && (forall q :: 0 <= q < |s.queues| && Live(s, q) && q !in queues ==> index < Reach(s, q))
    case SetCursor(next, _) => Covered(s, next)
    case CompleteDrained => High(s.emitted) == total
    case _ => true
  }

  ghost predicate OpsOk(total: nat, s: State, ops: seq<Op>) {
    forall i :: 0 <= i < |ops| ==> OpOk(total, s, ops[i])
  }

  ghost predicate SubscriberOk(steps: seq<Event>, emitted: seq<nat>, q: Subscriber) {
    && Gapless(Trace(emitted, q))
    && High(Trace(emitted, q)) <= |steps|
    && Filtered(steps, q)
    && (q.phase != Streaming ==> q.consumed == [] && q.backlog == [] && High(q.queue) <= High(emitted))
  }

  ghost predicate CoreOk(steps: seq<Event>, s: State) {
    && Gapless(s.emitted) && High(s.emitted) <= |steps|
    && (forall q :: 0 <= q < |s.queues| ==> SubscriberOk(steps, s.emitted, s.queues[q]))
    && (forall q :: q in s.subscribers ==> q < |s.queues|)
    && Covered(s, s.cursor)
    && (s.drained ==> High(s.emitted) == |steps|)
  }

  ghost predicate Inv(steps: seq<Event>, s: State) {
    && CoreOk(steps, s)
    && forall f :: f in s.fibers ==> OpsOk(|steps|, s, s.fibers[f])
  }

  /** No frontier moves back, and a subscriber that becomes live starts at the emitted frontier. */
  ghost predicate Grows(s: State, t: State) {
    && High(s.emitted) <= High(t.emitted)
    && |s.queues| <= |t.queues|
    && (forall q :: 0 <= q < |s.queues| ==>
          Reach(s, q) <= Reach(t, q) && (s.queues[q].ended ==> t.queues[q].ended))
    && (forall q :: 0 <= q < |t.queues| && Live(t, q) ==>
          (q < |s.queues| && Live(s, q)) || High(t.emitted) <= Reach(t, q))
  }

  lemma OpsStayOk(total: nat, s: State, t: State, ops: seq<Op>)
    requires OpsOk(total, s, ops) && Grows(s, t) && High(t.emitted) <= total
    ensures OpsOk(total, t, ops)
  {
    forall i | 0 <= i < |ops| ensures OpOk(total, t, ops[i]) {
      OpStaysOk(total, s, t, ops[i]);
    }
  }

  lemma CoveredStays(s: State, t: State, n: nat)
    requires Covered(s, n) && Grows(s, t)
    ensures Covered(t, n)
  {
  }

  lemma OpStaysOk(total: nat, s: State, t: State, op: Op)
    requires OpOk(total, s, op) && Grows(s, t) && High(t.emitted) <= total
    ensures OpOk(total, t, op)
  {
    match op
    case Delay(index) => CoveredStays(s, t, index);
    case SeekLoop(cursor, _) => CoveredStays(s, t, cursor);
    case Append(index, _) => CoveredStays(s, t, index);
    case GetSubscribers(index, _) => CoveredStays(s, t, index);
    case SetCursor(next, _) => CoveredStays(s, t, next);
    case _ =>
  }

  /** A fiber replaces its first step by `added`; other fibers may have been stopped or started. */
  lemma FiberMoves(steps: seq<Event>, s: State, t: State, fiber: nat, added: seq<Op>)
    requires Inv(steps, s) && CoreOk(steps, t) && Grows(s, t)
    requires fiber in s.fibers && s.fibers[fiber] != []
    requires forall f :: f in t.fibers ==>
               || (f in s.fibers && t.fibers[f] == s.fibers[f])
               || t.fibers[f] == added + s.fibers[fiber][1..]
               || t.fibers[f] == [DriverLoop]
    requires OpsOk(|steps|, t, added)
    ensures Inv(steps, t)
  {
    var rest := s.fibers[fiber][1..];
    OpsStayOk(|steps|, s, t, rest);
    forall f | f in t.fibers ensures OpsOk(|steps|, t, t.fibers[f]) {
      if f in s.fibers && t.fibers[f] == s.fibers[f] {
        OpsStayOk(|steps|, s, t, s.fibers[f]);
      }
    }
  }

  ghost predicate SameCore(s: State, t: State) {
    t.emitted == s.emitted && t.queues == s.queues && t.cursor == s.cursor && t.drained == s.drained
  }

  /** Nothing but fibers, flags and a shrinking subscriber list changed. */
  lemma CoreStays(steps: seq<Event>, s: State, t: State)
    requires CoreOk(steps, s) && SameCore(s, t)
    requires forall q :: q in t.subscribers ==> q in s.subscribers
    ensures CoreOk(steps, t) && Grows(s, t)
  {
    forall q | 0 <= q < |t.queues| && Live(t, q) ensures Live(s, q) && Reach(s, q) == Reach(t, q) {
    }
    CoveredStays(s, t, s.cursor);
  }

  // ----- the steps that touch the shared streams -----

  lemma AppendStep(steps: seq<Event>, s: State, t: State, index: nat)
    requires CoreOk(steps, s) && index < |steps| && Covered(s, index)
    requires t == s.(emitted := s.emitted + [index], fibers := t.fibers)
    ensures CoreOk(steps, t) && Grows(s, t) && index < High(t.emitted) && Covered(t, index)
  {
    HighOfSnoc(s.emitted, index);
    forall q | 0 <= q < |t.queues|
      ensures SubscriberOk(steps, t.emitted, t.queues[q]) && Reach(s, q) <= Reach(t, q)
    {
      TraceAfterAppend(steps, s.emitted, index, s.queues[q]);
    }
    CoveredStays(s, t, index);
    CoveredStays(s, t, s.cursor);
  }

  lemma TraceAfterAppend(steps: seq<Event>, emitted: seq<nat>, index: nat, q: Subscriber)
    requires SubscriberOk(steps, emitted, q) && Gapless(emitted)
    requires index <= High(emitted) && index < |steps| && High(emitted) <= |steps|
    ensures SubscriberOk(steps, emitted + [index], q)
    ensures High(Trace(emitted, q)) <= High(Trace(emitted + [index], q))
  {
    HighOfSnoc(emitted, index);
    if q.phase != Streaming {
      GaplessBehind(emitted, q.queue);
      GaplessBehind(emitted + [index], q.queue);
    }
  }

  lemma OfferExtends(steps: seq<Event>, emitted: seq<nat>, q: Subscriber, index: nat)
    requires SubscriberOk(steps, emitted, q) && Gapless(emitted) && High(emitted) <= |steps|
    requires q.ended || index <= High(Trace(emitted, q))
    requires index < High(emitted)
    ensures SubscriberOk(steps, emitted, Offer(q, index))
    ensures High(Trace(emitted, q)) <= High(Trace(emitted, Offer(q, index)))
    ensures !q.ended ==> index < High(Trace(emitted, Offer(q, index)))
  {
    if !q.ended {
      var before := if q.phase == Streaming then q.consumed + q.backlog else emitted;
      assert before + (q.queue + [index]) == (before + q.queue) + [index];
      HighOfSnoc(Trace(emitted, q), index);
      HighOfSnoc(q.queue, index);
    }
  }

  lemma OneQueueChanges(steps: seq<Event>, s: State, t: State, q: nat)
    requires CoreOk(steps, s) && q < |s.queues| && |t.queues| == |s.queues|
    requires t == s.(queues := s.queues[q := t.queues[q]], subscribers := t.subscribers, fibers := t.fibers)
    requires SubscriberOk(steps, s.emitted, t.queues[q])
    requires High(Trace(s.emitted, s.queues[q])) <= High(Trace(s.emitted, t.queues[q]))
    requires s.queues[q].ended ==> t.queues[q].ended
    requires forall p :: p in t.subscribers ==> p in s.subscribers || p == q
    requires Live(t, q) ==> Live(s, q) || High(s.emitted) <= High(Trace(s.emitted, t.queues[q]))
    ensures CoreOk(steps, t) && Grows(s, t)
  {
    forall p | 0 <= p < |t.queues|
      ensures SubscriberOk(steps, t.emitted, t.queues[p]) && Reach(s, p) <= Reach(t, p)
    {
      if p != q {
        assert t.queues[p] == s.queues[p];
      }
    }
    forall p | 0 <= p < |t.queues| && Live(t, p)
      ensures Live(s, p) || High(t.emitted) <= Reach(t, p)
    {
      if p != q {
        assert t.queues[p] == s.queues[p];
      }
    }
    CoveredStays(s, t, s.cursor);
  }

  lemma RegisteredQueue(steps: seq<Event>, emitted: seq<nat>, q: Subscriber)
    requires SubscriberOk(steps, emitted, q) && q.phase == Opened && Gapless(emitted)
    ensures SubscriberOk(steps, emitted, q.(phase := Registered))
    ensures High(emitted) == High(Trace(emitted, q)) == High(Trace(emitted, q.(phase := Registered)))
  {
    GaplessBehind(emitted, q.queue);
  }

  lemma BacklogRead(steps: seq<Event>, emitted: seq<nat>, q: Subscriber)
    requires SubscriberOk(steps, emitted, q) && q.phase == Registered
    ensures SubscriberOk(steps, emitted, q.(phase := Streaming, backlog := emitted))
    ensures Trace(emitted, q.(phase := Streaming, backlog := emitted)) == Trace(emitted, q)
  {
    assert q.consumed + emitted == emitted;
  }

  lemma MoveOne(consumed: seq<nat>, waiting: seq<nat>, later: seq<nat>)
    requires waiting != []
    ensures consumed + waiting + later == (consumed + [waiting[0]]) + waiting[1..] + later
    ensures consumed + waiting + later == consumed + [waiting[0]] + (waiting[1..] + later)
  {
    assert waiting == [waiting[0]] + waiting[1..];
  }

  /** `next` is `q` after its stream element `index` went through the filter; `later` is still to come. */
  ghost predicate Pulled(steps: seq<Event>, q: Subscriber, next: Subscriber, index: nat, later: seq<nat>) {
    && index < |steps|
    && q.phase == next.phase == Streaming
    && next.consumed == q.consumed + [index]
    && next.backlog + next.queue == later
    && next.received == Consume(steps, q, index).received
    && next.seen == Consume(steps, q, index).seen
    && next.fromSequence == q.fromSequence
  }

  lemma PulledStream(steps: seq<Event>, emitted: seq<nat>, q: Subscriber, next: Subscriber, index: nat, later: seq<nat>)
    requires Increasing(steps) && SubscriberOk(steps, emitted, q)
    requires Pulled(steps, q, next, index, later)
    requires Trace(emitted, q) == q.consumed + [index] + later
    ensures SubscriberOk(steps, emitted, next)
    ensures Trace(emitted, next) == Trace(emitted, q)
  {
    PulledNext(steps, emitted, q, index, later);
    Regroup(next.consumed, next.backlog, next.queue);
  }

  lemma HeadInRange(steps: seq<Event>, emitted: seq<nat>, q: Subscriber, index: nat, later: seq<nat>)
    requires SubscriberOk(steps, emitted, q) && Trace(emitted, q) == q.consumed + [index] + later
    ensures index < |steps|
  {
    HighOfAppend(q.consumed + [index], later);
    HighOfSnoc(q.consumed, index);
  }

  lemma PullShape(steps: seq<Event>, q: Subscriber)
    requires q.phase == Streaming
    ensures q.backlog != [] && q.backlog[0] < |steps| ==>
              Pulled(steps, q, PullOne(steps, q), q.backlog[0], q.backlog[1..] + q.queue)
    ensures q.backlog == [] && q.queue != [] && q.queue[0] < |steps| ==>
              Pulled(steps, q, PullOne(steps, q), q.queue[0], q.queue[1..])
  {
  }

  lemma PulledOne(steps: seq<Event>, emitted: seq<nat>, q: Subscriber)
    requires Increasing(steps) && SubscriberOk(steps, emitted, q) && q.phase == Streaming
    ensures SubscriberOk(steps, emitted, PullOne(steps, q))
    ensures Trace(emitted, PullOne(steps, q)) == Trace(emitted, q)
  {
    PullShape(steps, q);
    if q.backlog != [] {
      PulledWaiting(steps, emitted, q, PullOne(steps, q), q.backlog, q.queue);
    } else if q.queue != [] {
      assert q.consumed + [] + q.queue == q.consumed + q.queue + [] && q.queue[1..] + [] == q.queue[1..];
      PulledWaiting(steps, emitted, q, PullOne(steps, q), q.queue, []);
    }
  }

  lemma PulledWaiting(
    steps: seq<Event>, emitted: seq<nat>, q: Subscriber, next: Subscriber, waiting: seq<nat>, later: seq<nat>)
    requires Increasing(steps) && SubscriberOk(steps, emitted, q) && q.phase == Streaming
    requires waiting != [] && Trace(emitted, q) == q.consumed + waiting + later
    requires waiting[0] < |steps| ==> Pulled(steps, q, next, waiting[0], waiting[1..] + later)
    ensures SubscriberOk(steps, emitted, next)
    ensures Trace(emitted, next) == Trace(emitted, q)
  {
    MoveOne(q.consumed, waiting, later);
    HeadInRange(steps, emitted, q, waiting[0], waiting[1..] + later);
    PulledStream(steps, emitted, q, next, waiting[0], waiting[1..] + later);
  }

  lemma PullKeepsFlags(steps: seq<Event>, q: Subscriber)
    ensures PullOne(steps, q).ended == q.ended && PullOne(steps, q).phase == q.phase
  {
  }

  /** The next stream element is in range and gapless behind what was consumed. */
  lemma PulledNext(steps: seq<Event>, emitted: seq<nat>, q: Subscriber, index: nat, later: seq<nat>)
    requires Increasing(steps) && SubscriberOk(steps, emitted, q) && q.phase == Streaming
    requires Trace(emitted, q) == q.consumed + [index] + later
    ensures index < |steps| && Filtered(steps, Consume(steps, q, index))
  {
    HighOfAppend(q.consumed + [index], later);
    HighOfSnoc(q.consumed, index);
    ConsumeKeepsFiltered(steps, q, index);
  }

  // ----- every action keeps the invariant -----

  /** The steps of a fiber that only move control state. */
  predicate Plain(op: Op) {
    op.SetMode? || op.StoreRate? || op.StartIfPlaying? || op.GetDriver? || op.InterruptDriver? || op.ClearDriver?
    || op.ForkDriver? || op.SetDriver? || op.DriverLoop? || op.Delay? || op.StepAtCursor? || op.SeekFrom?
    || op.SeekLoop? || op.GetSubscribersToEnd? || op.ClearSubscribers?
  }

  /** What a plain step puts in front of the rest of its fiber. */
  function Added(s: State, op: Op, total: nat): seq<Op> {
    match op
    case StartIfPlaying => if s.playing then [GetDriver, ForkDriver] else []
    case GetDriver => if s.driver.Some? then [InterruptDriver(s.driver.value), ClearDriver] else []
    case ForkDriver => [SetDriver(s.nextFiber)]
    case DriverLoop => if s.cursor >= total then [] else [Delay(s.cursor)]
    case Delay(index) => EmitAt(index, DriveOn, total)
    case StepAtCursor => EmitAt(s.cursor, Finish, total)
    case SeekFrom(target) => [SeekLoop(s.cursor, target)]
    case SeekLoop(cursor, target) => if cursor < target then EmitAt(cursor, SeekOn(target), total) else []
    case GetSubscribersToEnd => [EndQueues(s.subscribers), ClearSubscribers]
    case _ => []
  }

  lemma PlainEffect(s: State, fiber: nat, total: nat)
    requires fiber in s.fibers && s.fibers[fiber] != [] && Plain(s.fibers[fiber][0])
    ensures var t := RunOp(s, fiber, total);
            && SameCore(s, t)
            && (t.subscribers == s.subscribers || t.subscribers == [])
            && forall f :: f in t.fibers ==>
                 || (f in s.fibers && t.fibers[f] == s.fibers[f])
                 || t.fibers[f] == Added(s, s.fibers[fiber][0], total) + s.fibers[fiber][1..]
                 || t.fibers[f] == [DriverLoop]
  {
    assert [] + s.fibers[fiber][1..] == s.fibers[fiber][1..];
  }

  lemma PlainKeepsInv(steps: seq<Event>, s: State, fiber: nat)
    requires Inv(steps, s) && fiber in s.fibers && s.fibers[fiber] != [] && Plain(s.fibers[fiber][0])
    ensures Inv(steps, RunOp(s, fiber, |steps|))
  {
    var op := s.fibers[fiber][0];
    var added := Added(s, op, |steps|);
    assert OpOk(|steps|, s, op);
    AddedIsOk(steps, s, op);
    PlainEffect(s, fiber, |steps|);
    PlainStep(steps, s, RunOp(s, fiber, |steps|), fiber, added);
  }

  lemma PlainStep(steps: seq<Event>, s: State, t: State, fiber: nat, added: seq<Op>)
    requires Inv(steps, s) && SameCore(s, t) && OpsOk(|steps|, s, added)
    requires t.subscribers == s.subscribers || t.subscribers == []
    requires fiber in s.fibers && s.fibers[fiber] != []
    requires forall f :: f in t.fibers ==>
               || (f in s.fibers && t.fibers[f] == s.fibers[f])
               || t.fibers[f] == added + s.fibers[fiber][1..]
               || t.fibers[f] == [DriverLoop]
    ensures Inv(steps, t)
  {
    CoreStays(steps, s, t);
    OpsStayOk(|steps|, s, t, added);
    FiberMoves(steps, s, t, fiber, added);
  }

  lemma AddedIsOk(steps: seq<Event>, s: State, op: Op)
    requires CoreOk(steps, s) && OpOk(|steps|, s, op) && Plain(op)
    ensures OpsOk(|steps|, s, Added(s, op, |steps|))
  {
  }

  lemma AppendKeepsInv(steps: seq<Event>, s: State, fiber: nat)
    requires Inv(steps, s) && fiber in s.fibers && s.fibers[fiber] != [] && s.fibers[fiber][0].Append?
    ensures Inv(steps, RunOp(s, fiber, |steps|))
  {
    var op := s.fibers[fiber][0];
    var t := RunOp(s, fiber, |steps|);
    assert OpOk(|steps|, s, op);
    AppendStep(steps, s, t, op.index);
    FiberMoves(steps, s, t, fiber, [GetSubscribers(op.index, op.after)]);
  }

  lemma GetSubscribersKeepsInv(steps: seq<Event>, s: State, fiber: nat)
    requires Inv(steps, s) && fiber in s.fibers && s.fibers[fiber] != [] && s.fibers[fiber][0].GetSubscribers?
    ensures Inv(steps, RunOp(s, fiber, |steps|))
  {
    var op := s.fibers[fiber][0];
    var t := RunOp(s, fiber, |steps|);
    assert OpOk(|steps|, s, op);
    CoreStays(steps, s, t);
    FiberMoves(steps, s, t, fiber, [Offers(op.index, s.subscribers, op.after)]);
  }

  lemma OfferKeepsInv(steps: seq<Event>, s: State, fiber: nat)
    requires Inv(steps, s) && fiber in s.fibers && s.fibers[fiber] != [] && s.fibers[fiber][0].Offers?
    ensures Inv(steps, RunOp(s, fiber, |steps|))
  {
    var op := s.fibers[fiber][0];
    assert OpOk(|steps|, s, op);
    if op.queues == [] {
      OffersDone(steps, s, RunOp(s, fiber, |steps|), fiber, op.index, op.after);
    } else {
      assert op.queues[0] in op.queues;
      OfferNext(steps, s, RunOp(s, fiber, |steps|), fiber, op.index, op.queues, op.after);
    }
  }

  lemma OffersDone(steps: seq<Event>, s: State, t: State, fiber: nat, index: nat, after: After)
    requires Inv(steps, s) && fiber in s.fibers && s.fibers[fiber] != []
    requires OpOk(|steps|, s, Offers(index, [], after))
    requires t == WithFiber(s, fiber, [SetCursor(index + 1, after)] + s.fibers[fiber][1..])
    ensures Inv(steps, t)
  {
    CoreStays(steps, s, t);
    CoveredStays(s, t, index + 1);
    FiberMoves(steps, s, t, fiber, [SetCursor(index + 1, after)]);
  }

  lemma OfferNext(steps: seq<Event>, s: State, t: State, fiber: nat, index: nat, queues: seq<nat>, after: After)
    requires Inv(steps, s) && fiber in s.fibers && s.fibers[fiber] != [] && queues != [] && queues[0] < |s.queues|
    requires OpOk(|steps|, s, Offers(index, queues, after))
    requires t == WithFiber(
               s.(queues := s.queues[queues[0] := Offer(s.queues[queues[0]], index)]),
               fiber, [Offers(index, queues[1..], after)] + s.fibers[fiber][1..])
    ensures Inv(steps, t)
  {
    OfferOne(steps, s, t, index, queues, after);
    FiberMoves(steps, s, t, fiber, [Offers(index, queues[1..], after)]);
  }

  lemma OfferOne(steps: seq<Event>, s: State, t: State, index: nat, queues: seq<nat>, after: After)
    requires CoreOk(steps, s) && queues != [] && queues[0] < |s.queues|
    requires OpOk(|steps|, s, Offers(index, queues, after))
    requires t == s.(queues := s.queues[queues[0] := Offer(s.queues[queues[0]], index)], fibers := t.fibers)
    ensures CoreOk(steps, t) && Grows(s, t)
    ensures OpOk(|steps|, t, Offers(index, queues[1..], after))
  {
    var q := queues[0];
    assert q in queues;
    OfferExtends(steps, s.emitted, s.queues[q], index);
    OneQueueChanges(steps, s, t, q);
    OpStaysOk(|steps|, s, t, Offers(index, queues, after));
    OfferedFirst(|steps|, t, index, queues, after);
  }

  lemma OfferedFirst(total: nat, t: State, index: nat, queues: seq<nat>, after: After)
    requires queues != [] && OpOk(total, t, Offers(index, queues, after))
    requires queues[0] < |t.queues| && (t.queues[queues[0]].ended || index < Reach(t, queues[0]))
    ensures OpOk(total, t, Offers(index, queues[1..], after))
  {
    assert queues == [queues[0]] + queues[1..];
  }

  lemma SetCursorKeepsInv(steps: seq<Event>, s: State, fiber: nat)
    requires Inv(steps, s) && fiber in s.fibers && s.fibers[fiber] != [] && s.fibers[fiber][0].SetCursor?
    ensures Inv(steps, RunOp(s, fiber, |steps|))
  {
    var op := s.fibers[fiber][0];
    var t := RunOp(s, fiber, |steps|);
    assert OpOk(|steps|, s, op);
    var added := (if op.next >= |steps| then [CompleteDrained] else []) + Continue(op.next, op.after);
    assert Grows(s, t);
    CoveredStays(s, t, op.next);
    FiberMoves(steps, s, t, fiber, added);
  }

  lemma EndOne(steps: seq<Event>, s: State, t: State, q: nat)
    requires CoreOk(steps, s) && q < |s.queues|
    requires t == s.(queues := s.queues[q := EndQueue(s.queues[q])], fibers := t.fibers)
    ensures CoreOk(steps, t) && Grows(s, t)
  {
    assert Trace(s.emitted, EndQueue(s.queues[q])) == Trace(s.emitted, s.queues[q]);
    OneQueueChanges(steps, s, t, q);
  }

  lemma EndQueueKeepsInv(steps: seq<Event>, s: State, fiber: nat)
    requires Inv(steps, s) && fiber in s.fibers && s.fibers[fiber] != [] && s.fibers[fiber][0].EndQueues?
    ensures Inv(steps, RunOp(s, fiber, |steps|))
  {
    var queues := s.fibers[fiber][0].queues;
    var added := if queues == [] then [] else [EndQueues(queues[1..])];
    assert [] + s.fibers[fiber][1..] == s.fibers[fiber][1..];
    EndStep(steps, s, RunOp(s, fiber, |steps|), fiber, queues, added);
  }

  lemma EndStep(steps: seq<Event>, s: State, t: State, fiber: nat, queues: seq<nat>, added: seq<Op>)
    requires Inv(steps, s) && fiber in s.fibers && s.fibers[fiber] != []
    requires t == WithFiber(
               if queues != [] && queues[0] < |s.queues|
               then s.(queues := s.queues[queues[0] := EndQueue(s.queues[queues[0]])])
               else s,
               fiber, added + s.fibers[fiber][1..])
    requires forall i :: 0 <= i < |added| ==> added[i].EndQueues?
    ensures Inv(steps, t)
  {
    if queues != [] && queues[0] < |s.queues| {
      EndOne(steps, s, t, queues[0]);
    } else {
      CoreStays(steps, s, t);
    }
    FiberMoves(steps, s, t, fiber, added);
  }

  lemma DrainKeepsInv(steps: seq<Event>, s: State, fiber: nat)
    requires Inv(steps, s) && fiber in s.fibers && s.fibers[fiber] != [] && s.fibers[fiber][0].CompleteDrained?
    ensures Inv(steps, RunOp(s, fiber, |steps|))
  {
    var t := RunOp(s, fiber, |steps|);
    assert OpOk(|steps|, s, s.fibers[fiber][0]);
    assert Grows(s, t);
    CoveredStays(s, t, s.cursor);
    assert [] + s.fibers[fiber][1..] == s.fibers[fiber][1..];
    FiberMoves(steps, s, t, fiber, []);
  }

  lemma RunKeepsInv(steps: seq<Event>, s: State, fiber: nat)
    requires Inv(steps, s) && fiber in s.fibers && s.fibers[fiber] != []
    ensures Inv(steps, RunOp(s, fiber, |steps|))
  {
    var op := s.fibers[fiber][0];
    if Plain(op) {
      PlainKeepsInv(steps, s, fiber);
    } else {
      match op
      case Append(_, _) => AppendKeepsInv(steps, s, fiber);
      case GetSubscribers(_, _) => GetSubscribersKeepsInv(steps, s, fiber);
      case Offers(_, _, _) => OfferKeepsInv(steps, s, fiber);
      case SetCursor(_, _) => SetCursorKeepsInv(steps, s, fiber);
      case EndQueues(_) => EndQueueKeepsInv(steps, s, fiber);
      case CompleteDrained => DrainKeepsInv(steps, s, fiber);
    }
  }

  /** The rest of the state moved and every fiber kept its steps, up to some new harmless fibers. */
  lemma FibersStay(steps: seq<Event>, s: State, t: State)
    requires Inv(steps, s) && CoreOk(steps, t) && Grows(s, t)
    requires forall f :: f in t.fibers ==>
               || (f in s.fibers && t.fibers[f] == s.fibers[f])
               || OpsOk(|steps|, t, t.fibers[f])
    ensures Inv(steps, t)
  {
    forall f | f in t.fibers ensures OpsOk(|steps|, t, t.fibers[f]) {
      if f in s.fibers && t.fibers[f] == s.fibers[f] {
        OpsStayOk(|steps|, s, t, s.fibers[f]);
      }
    }
  }

  lemma OpenKeepsInv(steps: seq<Event>, s: State, fromSequence: nat)
    requires Inv(steps, s)
    ensures Inv(steps, Next(steps, s, OpenStream(fromSequence)))
  {
    var t := Next(steps, s, OpenStream(fromSequence));
    var n := |s.queues|;
    assert steps[..0] == [];
    assert Trace(s.emitted, t.queues[n]) == s.emitted;
    forall q | 0 <= q < |t.queues| ensures SubscriberOk(steps, t.emitted, t.queues[q]) {
      if q < n {
        assert t.queues[q] == s.queues[q];
      }
    }
    forall q | 0 <= q < n ensures Reach(s, q) == Reach(t, q) {
      assert t.queues[q] == s.queues[q];
    }
    forall q | 0 <= q < |t.queues| && Live(t, q) ensures q < n && Live(s, q) {
    }
    CoveredStays(s, t, s.cursor);
    FibersStay(steps, s, t);
  }

  lemma QueueStep(steps: seq<Event>, s: State, t: State, q: nat)
    requires Inv(steps, s) && q < |s.queues| && |t.queues| == |s.queues|
    requires t == s.(queues := s.queues[q := t.queues[q]], subscribers := t.subscribers)
    requires SubscriberOk(steps, s.emitted, t.queues[q])
    requires High(Trace(s.emitted, s.queues[q])) == High(Trace(s.emitted, t.queues[q]))
    requires t.queues[q].ended == s.queues[q].ended
    requires forall p :: p in t.subscribers ==> p in s.subscribers || p == q
    requires Live(t, q) ==> Live(s, q) || High(s.emitted) <= High(Trace(s.emitted, t.queues[q]))
    ensures Inv(steps, t)
  {
    OneQueueChanges(steps, s, t, q);
    FibersStay(steps, s, t);
  }

  lemma RegisterKeepsInv(steps: seq<Event>, s: State, q: nat)
    requires Inv(steps, s)
    ensures Inv(steps, Next(steps, s, Register(q)))
  {
    var t := Next(steps, s, Register(q));
    if q < |s.queues| && s.queues[q].phase == Opened {
      RegisteredQueue(steps, s.emitted, s.queues[q]);
      QueueStep(steps, s, t, q);
    }
  }

  lemma ReadBacklogKeepsInv(steps: seq<Event>, s: State, q: nat)
    requires Inv(steps, s)
    ensures Inv(steps, Next(steps, s, ReadBacklog(q)))
  {
    var t := Next(steps, s, ReadBacklog(q));
    if q < |s.queues| && s.queues[q].phase == Registered {
      BacklogRead(steps, s.emitted, s.queues[q]);
      QueueStep(steps, s, t, q);
    }
  }

  lemma PullKeepsInv(steps: seq<Event>, s: State, q: nat)
    requires Increasing(steps) && Inv(steps, s)
    ensures Inv(steps, Next(steps, s, Pull(q)))
  {
    var t := Next(steps, s, Pull(q));
    if q < |s.queues| && s.queues[q].phase == Streaming {
      PulledOne(steps, s.emitted, s.queues[q]);
      PullKeepsFlags(steps, s.queues[q]);
      QueueStep(steps, s, t, q);
    }
  }

  lemma NextKeepsInv(steps: seq<Event>, s: State, action: Action)
    requires Increasing(steps) && Inv(steps, s)
    ensures Inv(steps, Next(steps, s, action))
  {
    var t := Next(steps, s, action);
    match action
    case Call(control) =>
      CoreStays(steps, s, t);
      FibersStay(steps, s, t);
    case Run(fiber) =>
      if fiber in s.fibers && s.fibers[fiber] != [] {
        RunKeepsInv(steps, s, fiber);
      }
    case Abandon(fiber) =>
      CoreStays(steps, s, t);
      FibersStay(steps, s, t);
    case OpenStream(fromSequence) => OpenKeepsInv(steps, s, fromSequence);
    case Register(q) => RegisterKeepsInv(steps, s, q);
    case ReadBacklog(q) => ReadBacklogKeepsInv(steps, s, q);
    case Pull(q) => PullKeepsInv(steps, s, q);
  }

  lemma {:induction false} RunsKeepInv(steps: seq<Event>, rate: real, actions: seq<Action>)
    requires Increasing(steps)
    ensures Inv(steps, Execute(steps, rate, actions))
  {
    if actions == [] {
    } else {
      RunsKeepInv(steps, rate, actions[..|actions| - 1]);
      NextKeepsInv(steps, Execute(steps, rate, actions[..|actions| - 1]), actions[|actions| - 1]);
    }
  }

  // ----- what every run promises -----

  lemma {:induction false} AbovePrefix(steps: seq<Event>, n: nat, fromSequence: nat)
    requires n <= |steps|
    ensures Above(steps[..n], fromSequence) <= Above(steps, fromSequence)
  {
    if n == |steps| {
      assert steps[..n] == steps;
    } else {
      var front := steps[..|steps| - 1];
      AbovePrefix(front, n, fromSequence);
      assert front[..n] == steps[..n];
    }
  }

  /**
   * In every run, with any number of controls and drivers at once and any of them interrupted
   * between any two steps, what a subscriber has received is a prefix of the steps past its
   * `fromSequence`: in order, with no gap and no repeat.
   */
  lemma SubscriberReceivesPrefix(steps: seq<Event>, rate: real, actions: seq<Action>, q: nat)
    requires Increasing(steps) && q < |Execute(steps, rate, actions).queues|
    ensures var u := Execute(steps, rate, actions).queues[q];
            u.received <= Above(steps, u.fromSequence)
  {
    RunsKeepInv(steps, rate, actions);
    var u := Execute(steps, rate, actions).queues[q];
    AbovePrefix(steps, High(u.consumed), u.fromSequence);
  }

  /** The cursor is at the end and nothing waits for this live subscriber. */
  predicate CaughtUp(steps: seq<Event>, s: State, q: nat) {
    && s.cursor >= |steps| && Live(s, q)
    && s.queues[q].phase == Streaming && s.queues[q].backlog == [] && s.queues[q].queue == []
  }

  lemma CaughtUpHasAll(steps: seq<Event>, s: State, q: nat)
    requires Inv(steps, s) && CaughtUp(steps, s, q)
    ensures s.queues[q].received == Above(steps, s.queues[q].fromSequence)
  {
    var u := s.queues[q];
    assert Trace(s.emitted, u) == u.consumed;
    assert High(u.consumed) == |steps|;
    assert steps[..|steps|] == steps;
  }

  /** Once the cursor is at the end and nothing waits, a live subscriber has received all of them. */
  lemma SubscriberReceivesAll(steps: seq<Event>, rate: real, actions: seq<Action>, q: nat)
    requires Increasing(steps) && CaughtUp(steps, Execute(steps, rate, actions), q)
    ensures var u := Execute(steps, rate, actions).queues[q];
            u.received == Above(steps, u.fromSequence)
  {
    RunsKeepInv(steps, rate, actions);
    CaughtUpHasAll(steps, Execute(steps, rate, actions), q);
  }

  /** `awaitDrained` completes only after every recorded step was emitted. */
  lemma DrainedMeansEmitted(steps: seq<Event>, rate: real, actions: seq<Action>, k: nat)
    requires Increasing(steps) && Execute(steps, rate, actions).drained
    ensures k in Execute(steps, rate, actions).emitted <==> k < |steps|
  {
    RunsKeepInv(steps, rate, actions);
    var emitted := Execute(steps, rate, actions).emitted;
    if k < |steps| {
      GaplessHolds(emitted, k);
    } else {
      NothingBeyondHigh(emitted, k);
    }
  }
}
