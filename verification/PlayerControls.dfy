/**
 * What each control of the scenario player does when its fiber runs to its end with no other fiber
 * moving, from any state a run can reach (packages/qa-scenario/src/player.ts).
 */
module PlayerControls {
  import opened Sequences
  import opened Wrappers
  import opened ScenarioPlayer

  // ----- one fiber running alone -----

  function Iterate<T>(f: T -> T, x: T, n: nat): T {
    if n == 0 then x else f(Iterate(f, x, n - 1))
  }

  ghost predicate Gets<T>(f: T -> T, x: T, y: T) {
    exists n: nat :: Iterate(f, x, n) == y
  }

  lemma {:induction false} IterateInTwo<T>(f: T -> T, x: T, m: nat, n: nat)
    ensures Iterate(f, Iterate(f, x, m), n) == Iterate(f, x, m + n)
  {
    if n == 0 {
    } else {
      IterateInTwo(f, x, m, n - 1);
    }
  }

  lemma GetsSelf<T>(f: T -> T, x: T)
    ensures Gets(f, x, x)
  {
    assert Iterate(f, x, 0) == x;
  }

  lemma GetsOn<T>(f: T -> T, x: T, y: T, z: T)
    requires Gets(f, x, y) && Gets(f, y, z)
    ensures Gets(f, x, z)
  {
    var m: nat :| Iterate(f, x, m) == y;
    var n: nat :| Iterate(f, y, n) == z;
    IterateInTwo(f, x, m, n);
  }

  lemma GetsByOne<T>(f: T -> T, x: T, z: T)
    requires Gets(f, f(x), z)
    ensures Gets(f, x, z)
  {
    assert Iterate(f, x, 0) == x && Iterate(f, x, 1) == f(x);
    GetsOn(f, x, f(x), z);
  }

  lemma {:induction false} FixedStays<T>(f: T -> T, x: T, n: nat)
    requires f(x) == x
    ensures Iterate(f, x, n) == x
  {
    if n == 0 {
    } else {
      FixedStays(f, x, n - 1);
    }
  }

  lemma OneFixedPoint<T>(f: T -> T, x: T, y: T, z: T)
    requires Gets(f, x, y) && f(y) == y && Gets(f, x, z) && f(z) == z
    ensures y == z
  {
    var m: nat :| Iterate(f, x, m) == y;
    var n: nat :| Iterate(f, x, n) == z;
    if m <= n {
      IterateInTwo(f, x, m, n - m);
      FixedStays(f, y, n - m);
    } else {
      IterateInTwo(f, x, n, m - n);
      FixedStays(f, z, m - n);
    }
  }

  /** One step of this fiber, all others standing still. */
  ghost function Stepper(steps: seq<Event>, fiber: nat): State -> State {
    s => Next(steps, s, Run(fiber))
  }

  ghost predicate Leads(steps: seq<Event>, s: State, fiber: nat, t: State) {
    Gets(Stepper(steps, fiber), s, t)
  }

  predicate AtEnd(s: State, fiber: nat) {
    fiber in s.fibers && s.fibers[fiber] == []
  }

  /** `t` is where calling `control` in `s` ends when only its own fiber runs. */
  ghost predicate EndsIn(steps: seq<Event>, s: State, control: Control, t: State) {
    Leads(steps, Next(steps, s, Call(control)), s.nextFiber, t) && AtEnd(t, s.nextFiber)
  }

  lemma LeadsNowhere(steps: seq<Event>, s: State, fiber: nat)
    ensures Leads(steps, s, fiber, s)
  {
    GetsSelf(Stepper(steps, fiber), s);
  }

  lemma LeadsOn(steps: seq<Event>, s: State, fiber: nat, t: State, u: State)
    requires Leads(steps, s, fiber, t) && Leads(steps, t, fiber, u)
    ensures Leads(steps, s, fiber, u)
  {
    GetsOn(Stepper(steps, fiber), s, t, u);
  }

  lemma LeadsByOne(steps: seq<Event>, s: State, fiber: nat, u: State)
    requires Leads(steps, Next(steps, s, Run(fiber)), fiber, u)
    ensures Leads(steps, s, fiber, u)
  {
    GetsByOne(Stepper(steps, fiber), s, u);
  }

  lemma EndIsFixed(steps: seq<Event>, s: State, fiber: nat)
    requires AtEnd(s, fiber)
    ensures Stepper(steps, fiber)(s) == s
  {
  }

  /** A fiber that runs alone has one end. */
  lemma OneEnd(steps: seq<Event>, s: State, fiber: nat, t: State, u: State)
    requires Leads(steps, s, fiber, t) && AtEnd(t, fiber) && Leads(steps, s, fiber, u) && AtEnd(u, fiber)
    ensures t == u
  {
    EndIsFixed(steps, t, fiber);
    EndIsFixed(steps, u, fiber);
    OneFixedPoint(Stepper(steps, fiber), s, t, u);
  }

  // ----- the steps, one by one -----

  lemma Overwritten(b: State, fiber: nat, x: seq<Op>, y: seq<Op>)
    ensures WithFiber(WithFiber(b, fiber, x), fiber, y) == WithFiber(b, fiber, y)
  {
  }

  /** The fiber's first step, with the state around it spelled out. */
  lemma FirstStep(steps: seq<Event>, b: State, fiber: nat, op: Op, rest: seq<Op>)
    ensures var s := WithFiber(b, fiber, [op] + rest);
      && s.fibers[fiber] == [op] + rest && s.fibers[fiber][0] == op && s.fibers[fiber][1..] == rest
      && Next(steps, s, Run(fiber)) == RunOp(s, fiber, |steps|)
  {
    assert ([op] + rest)[1..] == rest;
  }

  /** One step that leaves `b` changed to `c` and puts `added` in front of the rest. */
  ghost predicate Moves(steps: seq<Event>, b: State, fiber: nat, op: Op, rest: seq<Op>, c: State, added: seq<Op>) {
    Next(steps, WithFiber(b, fiber, [op] + rest), Run(fiber)) == WithFiber(c, fiber, added + rest)
  }

  lemma SetModeMoves(steps: seq<Event>, b: State, fiber: nat, playing: bool, rest: seq<Op>)
    ensures Moves(steps, b, fiber, SetMode(playing), rest, b.(playing := playing), [])
  {
    FirstStep(steps, b, fiber, SetMode(playing), rest);
    Overwritten(b.(playing := playing), fiber, [SetMode(playing)] + rest, rest);
    assert [] + rest == rest;
  }

  lemma StoreRateMoves(steps: seq<Event>, b: State, fiber: nat, rate: real, rest: seq<Op>)
    ensures Moves(steps, b, fiber, StoreRate(rate), rest, b.(rate := rate), [])
  {
    FirstStep(steps, b, fiber, StoreRate(rate), rest);
    Overwritten(b.(rate := rate), fiber, [StoreRate(rate)] + rest, rest);
    assert [] + rest == rest;
  }

  lemma ClearDriverMoves(steps: seq<Event>, b: State, fiber: nat, rest: seq<Op>)
    ensures Moves(steps, b, fiber, ClearDriver, rest, b.(driver := None), [])
  {
    FirstStep(steps, b, fiber, ClearDriver, rest);
    Overwritten(b.(driver := None), fiber, [ClearDriver] + rest, rest);
    assert [] + rest == rest;
  }

  lemma SetDriverMoves(steps: seq<Event>, b: State, fiber: nat, driver: nat, rest: seq<Op>)
    ensures Moves(steps, b, fiber, SetDriver(driver), rest, b.(driver := Some(driver)), [])
  {
    FirstStep(steps, b, fiber, SetDriver(driver), rest);
    Overwritten(b.(driver := Some(driver)), fiber, [SetDriver(driver)] + rest, rest);
    assert [] + rest == rest;
  }

  lemma ClearSubscribersMoves(steps: seq<Event>, b: State, fiber: nat, rest: seq<Op>)
    ensures Moves(steps, b, fiber, ClearSubscribers, rest, b.(subscribers := []), [])
  {
    FirstStep(steps, b, fiber, ClearSubscribers, rest);
    Overwritten(b.(subscribers := []), fiber, [ClearSubscribers] + rest, rest);
    assert [] + rest == rest;
  }

  lemma CompleteDrainedMoves(steps: seq<Event>, b: State, fiber: nat, rest: seq<Op>)
    ensures Moves(steps, b, fiber, CompleteDrained, rest, b.(drained := true), [])
  {
    FirstStep(steps, b, fiber, CompleteDrained, rest);
    Overwritten(b.(drained := true), fiber, [CompleteDrained] + rest, rest);
    assert [] + rest == rest;
  }

  lemma AppendMoves(steps: seq<Event>, b: State, fiber: nat, index: nat, after: After, rest: seq<Op>)
    ensures Moves(steps, b, fiber, Append(index, after), rest,
                  b.(emitted := b.emitted + [index]), [GetSubscribers(index, after)])
  {
    FirstStep(steps, b, fiber, Append(index, after), rest);
    Overwritten(b.(emitted := b.emitted + [index]), fiber, [Append(index, after)] + rest,
                [GetSubscribers(index, after)] + rest);
  }

  lemma SetCursorMoves(steps: seq<Event>, b: State, fiber: nat, next: nat, after: After, rest: seq<Op>)
    ensures Moves(steps, b, fiber, SetCursor(next, after), rest, b.(cursor := next),
                  (if next >= |steps| then [CompleteDrained] else []) + Continue(next, after))
  {
    FirstStep(steps, b, fiber, SetCursor(next, after), rest);
    Overwritten(b.(cursor := next), fiber, [SetCursor(next, after)] + rest,
                (if next >= |steps| then [CompleteDrained] else []) + Continue(next, after) + rest);
  }

  /** The steps that only decide what comes next. */
  predicate Decides(op: Op) {
    || op.DriverLoop? || op.Delay? || op.StepAtCursor? || op.SeekFrom? || op.SeekLoop? || op.GetSubscribers?
    || op.StartIfPlaying? || op.GetDriver? || op.GetSubscribersToEnd?
  }

  function Decision(b: State, op: Op, total: nat): seq<Op>
    requires Decides(op)
  {
    match op
    case DriverLoop => if b.cursor >= total then [] else [Delay(b.cursor)]
    case Delay(index) => if index < total then [Append(index, DriveOn)] else []
    case StepAtCursor => if b.cursor < total then [Append(b.cursor, Finish)] else []
    case SeekFrom(target) => [SeekLoop(b.cursor, target)]
    case SeekLoop(cursor, target) => if cursor < target && cursor < total then [Append(cursor, SeekOn(target))] else []
    case GetSubscribers(index, after) => [Offers(index, b.subscribers, after)]
    case StartIfPlaying => if b.playing then [GetDriver, ForkDriver] else []
    case GetDriver => if b.driver.Some? then [InterruptDriver(b.driver.value), ClearDriver] else []
    case GetSubscribersToEnd => [EndQueues(b.subscribers), ClearSubscribers]
  }

  lemma DecidesMoves(steps: seq<Event>, b: State, fiber: nat, op: Op, rest: seq<Op>)
    requires Decides(op)
    ensures Moves(steps, b, fiber, op, rest, b, Decision(b, op, |steps|))
  {
    FirstStep(steps, b, fiber, op, rest);
    Overwritten(b, fiber, [op] + rest, Decision(b, op, |steps|) + rest);
    assert [] + rest == rest;
  }

  /** After one step the fiber goes on from where it is. */
  lemma MovesLeads(steps: seq<Event>, b: State, fiber: nat, op: Op, rest: seq<Op>, c: State, added: seq<Op>, u: State)
    requires Moves(steps, b, fiber, op, rest, c, added)
    requires Leads(steps, WithFiber(c, fiber, added + rest), fiber, u)
    ensures Leads(steps, WithFiber(b, fiber, [op] + rest), fiber, u)
  {
    LeadsByOne(steps, WithFiber(b, fiber, [op] + rest), fiber, u);
  }

  // ----- stopping the driver -----

  /** No driver, and the fiber that was the driver is gone. */
  function Stopped(b: State): State {
    if b.driver.Some? then b.(driver := None, fibers := b.fibers - {b.driver.value}) else b
  }

  lemma InterruptMoves(steps: seq<Event>, b: State, fiber: nat, driver: nat, rest: seq<Op>)
    requires driver != fiber
    ensures Moves(steps, b, fiber, InterruptDriver(driver), rest, b.(fibers := b.fibers - {driver}), [])
  {
    FirstStep(steps, b, fiber, InterruptDriver(driver), rest);
    assert [] + rest == rest;
    assert b.fibers[fiber := [InterruptDriver(driver)] + rest][fiber := rest] - {driver}
        == (b.fibers - {driver})[fiber := rest];
  }

  /** A step that needs nothing after it. */
  lemma MovesThere(steps: seq<Event>, b: State, fiber: nat, op: Op, rest: seq<Op>, c: State, added: seq<Op>)
    requires Moves(steps, b, fiber, op, rest, c, added)
    ensures Leads(steps, WithFiber(b, fiber, [op] + rest), fiber, WithFiber(c, fiber, added + rest))
  {
    LeadsNowhere(steps, WithFiber(c, fiber, added + rest), fiber);
    MovesLeads(steps, b, fiber, op, rest, c, added, WithFiber(c, fiber, added + rest));
  }

  /** A step that adds nothing. */
  lemma MovesPast(steps: seq<Event>, b: State, fiber: nat, op: Op, rest: seq<Op>, c: State)
    requires Moves(steps, b, fiber, op, rest, c, [])
    ensures Leads(steps, WithFiber(b, fiber, [op] + rest), fiber, WithFiber(c, fiber, rest))
  {
    MovesThere(steps, b, fiber, op, rest, c, []);
    assert [] + rest == rest;
  }

  lemma InterruptLeads(steps: seq<Event>, b: State, fiber: nat, driver: nat, rest: seq<Op>)
    requires driver != fiber
    ensures Leads(steps, WithFiber(b, fiber, [InterruptDriver(driver)] + ([ClearDriver] + rest)), fiber,
                  WithFiber(b.(driver := None, fibers := b.fibers - {driver}), fiber, rest))
  {
    var c := b.(fibers := b.fibers - {driver});
    InterruptMoves(steps, b, fiber, driver, [ClearDriver] + rest);
    MovesPast(steps, b, fiber, InterruptDriver(driver), [ClearDriver] + rest, c);
    ClearDriverMoves(steps, c, fiber, rest);
    MovesPast(steps, c, fiber, ClearDriver, rest, c.(driver := None));
    LeadsOn(steps, WithFiber(b, fiber, [InterruptDriver(driver)] + ([ClearDriver] + rest)), fiber,
            WithFiber(c, fiber, [ClearDriver] + rest), WithFiber(c.(driver := None), fiber, rest));
  }

  lemma StopLeads(steps: seq<Event>, b: State, fiber: nat, rest: seq<Op>)
    requires b.driver.Some? ==> b.driver.value != fiber
    ensures Leads(steps, WithFiber(b, fiber, [GetDriver] + rest), fiber, WithFiber(Stopped(b), fiber, rest))
  {
    DecidesMoves(steps, b, fiber, GetDriver, rest);
    if b.driver.None? {
      MovesPast(steps, b, fiber, GetDriver, rest, b);
    } else {
      var driver := b.driver.value;
      InterruptLeads(steps, b, fiber, driver, rest);
      Regroup([InterruptDriver(driver)], [ClearDriver], rest);
      assert [InterruptDriver(driver), ClearDriver] == [InterruptDriver(driver)] + [ClearDriver];
      MovesLeads(steps, b, fiber, GetDriver, rest, b, [InterruptDriver(driver), ClearDriver],
                 WithFiber(Stopped(b), fiber, rest));
    }
  }

  // ----- emitting -----

  /** The queues after an offer to each of `queues` in turn. */
  function Offered(all: seq<Subscriber>, queues: seq<nat>, index: nat): seq<Subscriber>
    decreases |queues|
  {
    if queues == [] then all
    else if queues[0] < |all| then Offered(all[queues[0] := Offer(all[queues[0]], index)], queues[1..], index)
    else Offered(all, queues[1..], index)
  }

  /** One step emitted. */
  function Emitted(b: State, index: nat, total: nat): State {
    b.(emitted := b.emitted + [index], queues := Offered(b.queues, b.subscribers, index), cursor := index + 1,
       drained := b.drained || index + 1 >= total)
  }

  lemma OffersMoves(steps: seq<Event>, b: State, fiber: nat, index: nat, queues: seq<nat>, after: After, rest: seq<Op>)
    ensures queues == [] ==>
      Moves(steps, b, fiber, Offers(index, queues, after), rest, b, [SetCursor(index + 1, after)])
    ensures queues != [] ==>
      var c := if queues[0] < |b.queues|
               then b.(queues := b.queues[queues[0] := Offer(b.queues[queues[0]], index)]) else b;
      Moves(steps, b, fiber, Offers(index, queues, after), rest, c, [Offers(index, queues[1..], after)])
  {
    FirstStep(steps, b, fiber, Offers(index, queues, after), rest);
  }

  lemma {:induction false} OffersLead(
    steps: seq<Event>, b: State, fiber: nat, index: nat, queues: seq<nat>, after: After, rest: seq<Op>)
    ensures Leads(steps, WithFiber(b, fiber, [Offers(index, queues, after)] + rest), fiber,
                  WithFiber(b.(queues := Offered(b.queues, queues, index)), fiber,
                            [SetCursor(index + 1, after)] + rest))
    decreases |queues|
  {
    var u := WithFiber(b.(queues := Offered(b.queues, queues, index)), fiber, [SetCursor(index + 1, after)] + rest);
    OffersMoves(steps, b, fiber, index, queues, after, rest);
    if queues == [] {
      LeadsNowhere(steps, u, fiber);
      MovesLeads(steps, b, fiber, Offers(index, queues, after), rest, b, [SetCursor(index + 1, after)], u);
    } else {
      var c := if queues[0] < |b.queues|
               then b.(queues := b.queues[queues[0] := Offer(b.queues[queues[0]], index)]) else b;
      OffersLead(steps, c, fiber, index, queues[1..], after, rest);
      assert c.(queues := Offered(c.queues, queues[1..], index)) == b.(queues := Offered(b.queues, queues, index));
      MovesLeads(steps, b, fiber, Offers(index, queues, after), rest, c, [Offers(index, queues[1..], after)], u);
    }
  }

  lemma CursorLeads(steps: seq<Event>, b: State, fiber: nat, next: nat, after: After, rest: seq<Op>)
    ensures Leads(steps, WithFiber(b, fiber, [SetCursor(next, after)] + rest), fiber,
                  WithFiber(b.(cursor := next, drained := b.drained || next >= |steps|), fiber,
                            Continue(next, after) + rest))
  {
    SetCursorMoves(steps, b, fiber, next, after, rest);
    if next >= |steps| {
      LastCursorLeads(steps, b, fiber, next, after, rest);
    } else {
      assert [] + Continue(next, after) == Continue(next, after);
      MovesThere(steps, b, fiber, SetCursor(next, after), rest, b.(cursor := next), Continue(next, after));
    }
  }

  lemma LastCursorLeads(steps: seq<Event>, b: State, fiber: nat, next: nat, after: After, rest: seq<Op>)
    requires next >= |steps|
    requires Moves(steps, b, fiber, SetCursor(next, after), rest, b.(cursor := next),
                   [CompleteDrained] + Continue(next, after))
    ensures Leads(steps, WithFiber(b, fiber, [SetCursor(next, after)] + rest), fiber,
                  WithFiber(b.(cursor := next, drained := true), fiber, Continue(next, after) + rest))
  {
    var more := Continue(next, after) + rest;
    Regroup([CompleteDrained], Continue(next, after), rest);
    CompleteDrainedMoves(steps, b.(cursor := next), fiber, more);
    MovesPast(steps, b.(cursor := next), fiber, CompleteDrained, more, b.(cursor := next, drained := true));
    MovesLeads(steps, b, fiber, SetCursor(next, after), rest, b.(cursor := next),
               [CompleteDrained] + Continue(next, after), WithFiber(b.(cursor := next, drained := true), fiber, more));
  }

  /** Emitting one step, drained included, with the fiber left at what comes after. */
  lemma EmitLeads(steps: seq<Event>, b: State, fiber: nat, index: nat, after: After, rest: seq<Op>)
    ensures Leads(steps, WithFiber(b, fiber, [Append(index, after)] + rest), fiber,
                  WithFiber(Emitted(b, index, |steps|), fiber, Continue(index + 1, after) + rest))
  {
    var u := WithFiber(Emitted(b, index, |steps|), fiber, Continue(index + 1, after) + rest);
    var c := b.(emitted := b.emitted + [index]);
    var d := c.(queues := Offered(c.queues, c.subscribers, index));
    CursorLeads(steps, d, fiber, index + 1, after, rest);
    OffersLead(steps, c, fiber, index, c.subscribers, after, rest);
    LeadsOn(steps, WithFiber(c, fiber, [Offers(index, c.subscribers, after)] + rest), fiber,
            WithFiber(d, fiber, [SetCursor(index + 1, after)] + rest), u);
    DecidesMoves(steps, c, fiber, GetSubscribers(index, after), rest);
    MovesLeads(steps, c, fiber, GetSubscribers(index, after), rest, c, [Offers(index, c.subscribers, after)], u);
    AppendMoves(steps, b, fiber, index, after, rest);
    MovesLeads(steps, b, fiber, Append(index, after), rest, c, [GetSubscribers(index, after)], u);
  }

  // ----- emitting several -----

  function EmittedFrom(b: State, from: nat, to: nat, total: nat): State
    decreases if from < to then to - from else 0
  {
    if from >= to then b else EmittedFrom(Emitted(b, from, total), from + 1, to, total)
  }

  /** The numbers from `from` up to but not including `to`. */
  function FromTo(from: nat, to: nat): seq<nat> {
    if from >= to then [] else FromTo(from, to - 1) + [to - 1]
  }

  lemma {:induction false} FromToMeaning(from: nat, to: nat)
    ensures |FromTo(from, to)| == if from < to then to - from else 0
    ensures forall i :: 0 <= i < |FromTo(from, to)| ==> FromTo(from, to)[i] == from + i
  {
    if from >= to {
    } else {
      FromToMeaning(from, to - 1);
    }
  }

  lemma {:induction false} FromToFirst(from: nat, to: nat)
    requires from < to
    ensures FromTo(from, to) == [from] + FromTo(from + 1, to)
  {
    if from + 1 == to {
      assert FromTo(from, from) == [] && FromTo(from + 1, to) == [];
    } else {
      FromToFirst(from, to - 1);
      Regroup([from], FromTo(from + 1, to - 1), [to - 1]);
    }
  }

  /** What a number of emissions leaves behind, field by field. */
  ghost predicate HasEmitted(b: State, t: State, from: nat, to: nat, total: nat) {
    && t.emitted == b.emitted + FromTo(from, to)
    && t.cursor == (if from < to then to else b.cursor)
    && t.drained == (b.drained || (from < to && to >= total))
    && t.rate == b.rate && t.playing == b.playing && t.driver == b.driver
    && t.subscribers == b.subscribers && t.fibers == b.fibers && t.nextFiber == b.nextFiber
  }

  lemma {:induction false} EmittedFromMeaning(b: State, from: nat, to: nat, total: nat)
    ensures HasEmitted(b, EmittedFrom(b, from, to, total), from, to, total)
    decreases if from < to then to - from else 0
  {
    if from >= to {
      assert b.emitted + [] == b.emitted;
    } else {
      EmittedFromMeaning(Emitted(b, from, total), from + 1, to, total);
      FromToFirst(from, to);
      Regroup(b.emitted, [from], FromTo(from + 1, to));
    }
  }

  lemma {:induction false} SeekLeads(steps: seq<Event>, b: State, fiber: nat, from: nat, to: nat, rest: seq<Op>)
    requires to <= |steps|
    ensures Leads(steps, WithFiber(b, fiber, [SeekLoop(from, to)] + rest), fiber,
                  WithFiber(EmittedFrom(b, from, to, |steps|), fiber, rest))
    decreases if from < to then to - from else 0
  {
    var u := WithFiber(EmittedFrom(b, from, to, |steps|), fiber, rest);
    DecidesMoves(steps, b, fiber, SeekLoop(from, to), rest);
    if from >= to {
      LeadsNowhere(steps, u, fiber);
      assert [] + rest == rest;
      MovesLeads(steps, b, fiber, SeekLoop(from, to), rest, b, [], u);
    } else {
      SeekLeads(steps, Emitted(b, from, |steps|), fiber, from + 1, to, rest);
      EmitLeads(steps, b, fiber, from, SeekOn(to), rest);
      LeadsOn(steps, WithFiber(b, fiber, [Append(from, SeekOn(to))] + rest), fiber,
              WithFiber(Emitted(b, from, |steps|), fiber, [SeekLoop(from + 1, to)] + rest), u);
      MovesLeads(steps, b, fiber, SeekLoop(from, to), rest, b, [Append(from, SeekOn(to))], u);
    }
  }

  /** The driver emits everything that is left. */
  lemma {:induction false} DriveLeads(steps: seq<Event>, b: State, fiber: nat)
    ensures Leads(steps, WithFiber(b, fiber, [DriverLoop]), fiber,
                  WithFiber(EmittedFrom(b, b.cursor, |steps|, |steps|), fiber, []))
    decreases |steps| - b.cursor
  {
    var u := WithFiber(EmittedFrom(b, b.cursor, |steps|, |steps|), fiber, []);
    assert [DriverLoop] + [] == [DriverLoop];
    DecidesMoves(steps, b, fiber, DriverLoop, []);
    if b.cursor >= |steps| {
      LeadsNowhere(steps, u, fiber);
      MovesLeads(steps, b, fiber, DriverLoop, [], b, [], u);
    } else {
      var index := b.cursor;
      DriveLeads(steps, Emitted(b, index, |steps|), fiber);
      EmitLeads(steps, b, fiber, index, DriveOn, []);
      LeadsOn(steps, WithFiber(b, fiber, [Append(index, DriveOn)] + []), fiber,
              WithFiber(Emitted(b, index, |steps|), fiber, [DriverLoop] + []), u);
      DecidesMoves(steps, b, fiber, Delay(index), []);
      MovesLeads(steps, b, fiber, Delay(index), [], b, [Append(index, DriveOn)], u);
      MovesLeads(steps, b, fiber, DriverLoop, [], b, [Delay(index)], u);
    }
  }

  // ----- fiber names are never reused -----

  ghost predicate OpsFresh(ops: seq<Op>, next: nat) {
    forall i :: 0 <= i < |ops| && ops[i].SetDriver? ==> ops[i].driver < next
  }

  ghost predicate NamesFresh(s: State) {
    && (s.driver.Some? ==> s.driver.value < s.nextFiber)
    && forall f :: f in s.fibers ==> f < s.nextFiber && OpsFresh(s.fibers[f], s.nextFiber)
  }

  lemma OpsStayFresh(added: seq<Op>, ops: seq<Op>, before: nat, next: nat)
    requires ops != [] && OpsFresh(ops, before) && before <= next && OpsFresh(added, next)
    ensures OpsFresh(added + ops[1..], next)
  {
    forall i | 0 <= i < |added + ops[1..]| && (added + ops[1..])[i].SetDriver?
      ensures (added + ops[1..])[i].driver < next
    {
      if i >= |added| {
        assert (added + ops[1..])[i] == ops[i - |added| + 1];
      }
    }
  }

  /** Every fiber but this one is as before, gone, or a new driver; this one has `added` in front of the rest. */
  ghost predicate FiberStep(s: State, t: State, fiber: nat, added: seq<Op>) {
    && fiber in s.fibers && s.fibers[fiber] != []
    && s.nextFiber <= t.nextFiber
    && OpsFresh(added, t.nextFiber)
    && (t.driver.Some? ==> t.driver.value < t.nextFiber)
    && forall f :: f in t.fibers ==>
         || (f in s.fibers && t.fibers[f] == s.fibers[f])
         || (f == fiber && t.fibers[f] == added + s.fibers[fiber][1..])
         || (f < t.nextFiber && t.fibers[f] == [DriverLoop])
  }

  lemma FiberStepKeepsFresh(s: State, t: State, fiber: nat, added: seq<Op>)
    requires NamesFresh(s) && FiberStep(s, t, fiber, added)
    ensures NamesFresh(t)
  {
    OpsStayFresh(added, s.fibers[fiber], s.nextFiber, t.nextFiber);
  }

  /** What a step puts in front of the rest of its fiber. */
  ghost function AddedBy(s: State, op: Op, total: nat): seq<Op> {
    match op
    case StartIfPlaying => if s.playing then [GetDriver, ForkDriver] else []
    case GetDriver => if s.driver.Some? then [InterruptDriver(s.driver.value), ClearDriver] else []
    case ForkDriver => [SetDriver(s.nextFiber)]
    case DriverLoop => if s.cursor >= total then [] else [Delay(s.cursor)]
    case Delay(index) => EmitAt(index, DriveOn, total)
    case StepAtCursor => EmitAt(s.cursor, Finish, total)
    case SeekFrom(target) => [SeekLoop(s.cursor, target)]
    case SeekLoop(cursor, target) => if cursor < target then EmitAt(cursor, SeekOn(target), total) else []
    case Append(index, after) => [GetSubscribers(index, after)]
    case GetSubscribers(index, after) => [Offers(index, s.subscribers, after)]
    case Offers(index, queues, after) =>
      if queues == [] then [SetCursor(index + 1, after)] else [Offers(index, queues[1..], after)]
    case SetCursor(next, after) => (if next >= total then [CompleteDrained] else []) + Continue(next, after)
    case GetSubscribersToEnd => [EndQueues(s.subscribers), ClearSubscribers]
    case EndQueues(queues) => if queues == [] then [] else [EndQueues(queues[1..])]
    case _ => []
  }

  lemma AddedIsFresh(s: State, op: Op, total: nat)
    ensures OpsFresh(AddedBy(s, op, total), if op.ForkDriver? then s.nextFiber + 1 else s.nextFiber)
  {
  }

  lemma NamesAfter(s: State, fiber: nat, total: nat)
    requires fiber in s.fibers && s.fibers[fiber] != []
    ensures var t, op := RunOp(s, fiber, total), s.fibers[fiber][0];
      && t.nextFiber == (if op.ForkDriver? then s.nextFiber + 1 else s.nextFiber)
      && t.driver == (if op.ClearDriver? then None else if op.SetDriver? then Some(op.driver) else s.driver)
  {
  }

  lemma FibersAfter(s: State, fiber: nat, total: nat)
    requires fiber in s.fibers && s.fibers[fiber] != []
    requires !s.fibers[fiber][0].InterruptDriver? && !s.fibers[fiber][0].ForkDriver?
    ensures RunOp(s, fiber, total).fibers
         == s.fibers[fiber := AddedBy(s, s.fibers[fiber][0], total) + s.fibers[fiber][1..]]
  {
    assert [] + s.fibers[fiber][1..] == s.fibers[fiber][1..];
  }

  lemma FibersAfterDriver(s: State, fiber: nat, total: nat)
    requires fiber in s.fibers && s.fibers[fiber] != []
    requires s.fibers[fiber][0].InterruptDriver? || s.fibers[fiber][0].ForkDriver?
    ensures forall f :: f in RunOp(s, fiber, total).fibers ==>
      var t := RunOp(s, fiber, total);
      || (f in s.fibers && t.fibers[f] == s.fibers[f])
      || (f == fiber && t.fibers[f] == AddedBy(s, s.fibers[fiber][0], total) + s.fibers[fiber][1..])
      || (f < t.nextFiber && t.fibers[f] == [DriverLoop])
  {
    assert [] + s.fibers[fiber][1..] == s.fibers[fiber][1..];
  }

  lemma RunIsFiberStep(s: State, fiber: nat, total: nat)
    requires NamesFresh(s) && fiber in s.fibers && s.fibers[fiber] != []
    ensures FiberStep(s, RunOp(s, fiber, total), fiber, AddedBy(s, s.fibers[fiber][0], total))
  {
    assert OpsFresh(s.fibers[fiber], s.nextFiber);
    NamesAfter(s, fiber, total);
    AddedIsFresh(s, s.fibers[fiber][0], total);
    if s.fibers[fiber][0].InterruptDriver? || s.fibers[fiber][0].ForkDriver? {
      FibersAfterDriver(s, fiber, total);
    } else {
      FibersAfter(s, fiber, total);
    }
  }

  lemma NextKeepsFresh(steps: seq<Event>, s: State, action: Action)
    requires NamesFresh(s)
    ensures NamesFresh(Next(steps, s, action))
  {
    match action
    case Run(fiber) =>
      if fiber in s.fibers && s.fibers[fiber] != [] {
        RunIsFiberStep(s, fiber, |steps|);
        FiberStepKeepsFresh(s, RunOp(s, fiber, |steps|), fiber, AddedBy(s, s.fibers[fiber][0], |steps|));
      }
    case Call(control) =>
      var program := Program(control, |steps|);
      assert OpsFresh(program, s.nextFiber + 1);
      CallKeepsFresh(s, program);
    case _ =>
  }

  lemma CallKeepsFresh(s: State, program: seq<Op>)
    requires NamesFresh(s) && OpsFresh(program, s.nextFiber + 1)
    ensures NamesFresh(s.(fibers := s.fibers[s.nextFiber := program], nextFiber := s.nextFiber + 1))
  {
    forall f | f in s.fibers ensures OpsFresh(s.fibers[f], s.nextFiber + 1) {
      assert OpsFresh(s.fibers[f], s.nextFiber);
    }
  }

  lemma {:induction false} ReachedNamesAreFresh(steps: seq<Event>, rate: real, actions: seq<Action>)
    ensures NamesFresh(Execute(steps, rate, actions))
  {
    if actions == [] {
    } else {
      ReachedNamesAreFresh(steps, rate, actions[..|actions| - 1]);
      NextKeepsFresh(steps, Execute(steps, rate, actions[..|actions| - 1]), actions[|actions| - 1]);
    }
  }

  // ----- the controls -----

  /** The driver is gone, and so is its fiber; every other fiber is as it was, and the control's is done. */
  ghost predicate DriverStopped(s: State, t: State) {
    && t.driver == None
    && (s.driver.Some? ==> s.driver.value !in t.fibers)
    && (forall f :: f in s.fibers && Some(f) != s.driver ==> f in t.fibers && t.fibers[f] == s.fibers[f])
    && (forall f :: f in t.fibers ==> f in s.fibers || f == s.nextFiber)
  }

  ghost predicate SameQueues(s: State, t: State) {
    t.queues == s.queues && t.subscribers == s.subscribers
  }

  /** `s` with one more fiber name taken. */
  function Named(s: State): State {
    s.(nextFiber := s.nextFiber + 1)
  }

  lemma CallIsFiber(steps: seq<Event>, s: State, control: Control)
    ensures Next(steps, s, Call(control)) == WithFiber(Named(s), s.nextFiber, Program(control, |steps|))
  {
  }

  /** Set the mode to paused and stop the driver. */
  function Parked(s: State): State {
    Stopped(Named(s).(playing := false))
  }

  lemma ParkLeads(steps: seq<Event>, s: State, rest: seq<Op>)
    requires NamesFresh(s)
    ensures Leads(steps, WithFiber(Named(s), s.nextFiber, [SetMode(false)] + ([GetDriver] + rest)), s.nextFiber,
                  WithFiber(Parked(s), s.nextFiber, rest))
  {
    var b, fiber := Named(s), s.nextFiber;
    var c := b.(playing := false);
    SetModeMoves(steps, b, fiber, false, [GetDriver] + rest);
    MovesPast(steps, b, fiber, SetMode(false), [GetDriver] + rest, c);
    StopLeads(steps, c, fiber, rest);
    LeadsOn(steps, WithFiber(b, fiber, [SetMode(false)] + ([GetDriver] + rest)), fiber,
            WithFiber(c, fiber, [GetDriver] + rest), WithFiber(Parked(s), fiber, rest));
  }

  lemma ParkedIsStopped(s: State, t: State)
    requires NamesFresh(s) && t.driver == None && t.fibers == WithFiber(Parked(s), s.nextFiber, []).fibers
    ensures DriverStopped(s, t)
  {
  }

  lemma PauseEnds(steps: seq<Event>, s: State)
    requires NamesFresh(s)
    ensures EndsIn(steps, s, Pause, WithFiber(Parked(s), s.nextFiber, []))
  {
    CallIsFiber(steps, s, Pause);
    ParkLeads(steps, s, []);
    assert [SetMode(false), GetDriver] == [SetMode(false)] + ([GetDriver] + []);
  }

  lemma StepLeads(steps: seq<Event>, b: State, fiber: nat)
    requires b.cursor < |steps|
    ensures Leads(steps, WithFiber(b, fiber, [StepAtCursor]), fiber,
                  WithFiber(Emitted(b, b.cursor, |steps|), fiber, []))
  {
    assert [StepAtCursor] + [] == [StepAtCursor];
    DecidesMoves(steps, b, fiber, StepAtCursor, []);
    EmitLeads(steps, b, fiber, b.cursor, Finish, []);
    MovesLeads(steps, b, fiber, StepAtCursor, [], b, [Append(b.cursor, Finish)],
               WithFiber(Emitted(b, b.cursor, |steps|), fiber, []));
  }

  lemma NoStepLeads(steps: seq<Event>, b: State, fiber: nat)
    requires b.cursor >= |steps|
    ensures Leads(steps, WithFiber(b, fiber, [StepAtCursor]), fiber, WithFiber(b, fiber, []))
  {
    assert [StepAtCursor] + [] == [StepAtCursor];
    DecidesMoves(steps, b, fiber, StepAtCursor, []);
    MovesPast(steps, b, fiber, StepAtCursor, [], b);
  }

  /** The step at the cursor, if there is one. */
  function Stepped(b: State, total: nat): State {
    if b.cursor < total then Emitted(b, b.cursor, total) else b
  }

  lemma StepEnds(steps: seq<Event>, s: State)
    requires NamesFresh(s)
    ensures EndsIn(steps, s, StepOnce, WithFiber(Stepped(Parked(s), |steps|), s.nextFiber, []))
  {
    var b, fiber := Parked(s), s.nextFiber;
    CallIsFiber(steps, s, StepOnce);
    assert [SetMode(false), GetDriver, StepAtCursor] == [SetMode(false)] + ([GetDriver] + [StepAtCursor]);
    ParkLeads(steps, s, [StepAtCursor]);
    if b.cursor < |steps| {
      StepLeads(steps, b, fiber);
    } else {
      NoStepLeads(steps, b, fiber);
    }
    LeadsOn(steps, WithFiber(Named(s), fiber, [SetMode(false)] + ([GetDriver] + [StepAtCursor])), fiber,
            WithFiber(b, fiber, [StepAtCursor]), WithFiber(Stepped(b, |steps|), fiber, []));
  }

  lemma SeekEnds(steps: seq<Event>, s: State, k: int)
    requires NamesFresh(s)
    ensures EndsIn(steps, s, SeekTo(k),
                   WithFiber(EmittedFrom(Parked(s), s.cursor, ClampCursor(k + 1, |steps|), |steps|), s.nextFiber, []))
  {
    var b, fiber, target := Parked(s), s.nextFiber, ClampCursor(k + 1, |steps|);
    var start := WithFiber(Named(s), fiber, [SetMode(false)] + ([GetDriver] + [SeekFrom(target)]));
    var u := WithFiber(EmittedFrom(b, s.cursor, target, |steps|), fiber, []);
    CallIsFiber(steps, s, SeekTo(k));
    assert [SetMode(false), GetDriver, SeekFrom(target)] == [SetMode(false)] + ([GetDriver] + [SeekFrom(target)]);
    ParkLeads(steps, s, [SeekFrom(target)]);
    SeekFromLeads(steps, b, fiber, target);
    LeadsOn(steps, start, fiber, WithFiber(b, fiber, [SeekFrom(target)]), u);
  }

  lemma SeekFromLeads(steps: seq<Event>, b: State, fiber: nat, target: nat)
    requires target <= |steps|
    ensures Leads(steps, WithFiber(b, fiber, [SeekFrom(target)]), fiber,
                  WithFiber(EmittedFrom(b, b.cursor, target, |steps|), fiber, []))
  {
    assert [SeekFrom(target)] + [] == [SeekFrom(target)];
    DecidesMoves(steps, b, fiber, SeekFrom(target), []);
    SeekLeads(steps, b, fiber, b.cursor, target, []);
    MovesLeads(steps, b, fiber, SeekFrom(target), [], b, [SeekLoop(b.cursor, target)],
               WithFiber(EmittedFrom(b, b.cursor, target, |steps|), fiber, []));
  }

  // ----- what they mean -----

  /** `seekTo(k)` emits exactly the steps from the cursor up to and including `k`, and leaves playback parked. */
  lemma SeekToMeaning(steps: seq<Event>, rate: real, actions: seq<Action>, k: int, t: State)
    requires EndsIn(steps, Execute(steps, rate, actions), SeekTo(k), t)
    ensures var s := Execute(steps, rate, actions);
      var to := if k < 0 then 0 else if k < |steps| then k + 1 else |steps|;
      && t.emitted == s.emitted + FromTo(s.cursor, to)
      && t.cursor == (if s.cursor < to then to else s.cursor)
      && t.drained == (s.drained || s.cursor < to == |steps|)
      && !t.playing && t.rate == s.rate && t.subscribers == s.subscribers && DriverStopped(s, t)
  {
    var s := Execute(steps, rate, actions);
    ReachedNamesAreFresh(steps, rate, actions);
    SeekEnds(steps, s, k);
    var e := EmittedFrom(Parked(s), s.cursor, ClampCursor(k + 1, |steps|), |steps|);
    OneEnd(steps, Next(steps, s, Call(SeekTo(k))), s.nextFiber, t, WithFiber(e, s.nextFiber, []));
    EmittedFromMeaning(Parked(s), s.cursor, ClampCursor(k + 1, |steps|), |steps|);
    ParkedIsStopped(s, t);
  }

  /** `stepOnce` emits exactly the step at the cursor, if there is one, and leaves playback parked. */
  lemma StepOnceMeaning(steps: seq<Event>, rate: real, actions: seq<Action>, t: State)
    requires EndsIn(steps, Execute(steps, rate, actions), StepOnce, t)
    ensures var s := Execute(steps, rate, actions);
      && t.emitted == s.emitted + (if s.cursor < |steps| then [s.cursor] else [])
      && t.cursor == (if s.cursor < |steps| then s.cursor + 1 else s.cursor)
      && t.drained == (s.drained || s.cursor + 1 == |steps|)
      && !t.playing && t.rate == s.rate && t.subscribers == s.subscribers && DriverStopped(s, t)
  {
    var s := Execute(steps, rate, actions);
    ReachedNamesAreFresh(steps, rate, actions);
    StepEnds(steps, s);
    OneEnd(steps, Next(steps, s, Call(StepOnce)), s.nextFiber, t,
           WithFiber(Stepped(Parked(s), |steps|), s.nextFiber, []));
    assert s.emitted + [] == s.emitted;
    ParkedIsStopped(s, t);
  }

  /** `pause` stops the driver and emits nothing. */
  lemma PauseMeaning(steps: seq<Event>, rate: real, actions: seq<Action>, t: State)
    requires EndsIn(steps, Execute(steps, rate, actions), Pause, t)
    ensures var s := Execute(steps, rate, actions);
      && t.emitted == s.emitted && t.cursor == s.cursor && t.drained == s.drained && SameQueues(s, t)
      && !t.playing && t.rate == s.rate && DriverStopped(s, t)
  {
    var s := Execute(steps, rate, actions);
    ReachedNamesAreFresh(steps, rate, actions);
    PauseEnds(steps, s);
    OneEnd(steps, Next(steps, s, Call(Pause)), s.nextFiber, t, WithFiber(Parked(s), s.nextFiber, []));
    ParkedIsStopped(s, t);
  }

  // ----- playing -----

  /** The driver just forked, playing on from the cursor. */
  function Forked(b: State, fiber: nat): State {
    b.(fibers := b.fibers[b.nextFiber := [DriverLoop]], nextFiber := b.nextFiber + 1, driver := Some(b.nextFiber))
  }

  lemma ForkMoves(steps: seq<Event>, b: State, fiber: nat, rest: seq<Op>)
    requires fiber != b.nextFiber
    ensures Moves(steps, b, fiber, ForkDriver, rest,
                  b.(fibers := b.fibers[b.nextFiber := [DriverLoop]], nextFiber := b.nextFiber + 1),
                  [SetDriver(b.nextFiber)])
  {
    FirstStep(steps, b, fiber, ForkDriver, rest);
    var ops := [SetDriver(b.nextFiber)] + rest;
    assert b.fibers[fiber := [ForkDriver] + rest][b.nextFiber := [DriverLoop]][fiber := ops]
        == b.fibers[b.nextFiber := [DriverLoop]][fiber := ops];
  }

  lemma ForkLeads(steps: seq<Event>, b: State, fiber: nat)
    requires fiber != b.nextFiber
    ensures Leads(steps, WithFiber(b, fiber, [ForkDriver]), fiber, WithFiber(Forked(b, fiber), fiber, []))
  {
    var c := b.(fibers := b.fibers[b.nextFiber := [DriverLoop]], nextFiber := b.nextFiber + 1);
    assert [ForkDriver] + [] == [ForkDriver];
    ForkMoves(steps, b, fiber, []);
    SetDriverMoves(steps, c, fiber, b.nextFiber, []);
    MovesPast(steps, c, fiber, SetDriver(b.nextFiber), [], Forked(b, fiber));
    MovesLeads(steps, b, fiber, ForkDriver, [], c, [SetDriver(b.nextFiber)], WithFiber(Forked(b, fiber), fiber, []));
  }

  /** Stop the driver and fork another. */
  lemma RestartLeads(steps: seq<Event>, b: State, fiber: nat)
    requires fiber != b.nextFiber && (b.driver.Some? ==> b.driver.value != fiber)
    ensures Leads(steps, WithFiber(b, fiber, [GetDriver] + [ForkDriver]), fiber,
                  WithFiber(Forked(Stopped(b), fiber), fiber, []))
  {
    StopLeads(steps, b, fiber, [ForkDriver]);
    ForkLeads(steps, Stopped(b), fiber);
    LeadsOn(steps, WithFiber(b, fiber, [GetDriver] + [ForkDriver]), fiber,
            WithFiber(Stopped(b), fiber, [ForkDriver]), WithFiber(Forked(Stopped(b), fiber), fiber, []));
  }

  lemma PlayEnds(steps: seq<Event>, s: State)
    requires NamesFresh(s)
    ensures EndsIn(steps, s, Play,
                   WithFiber(Forked(Stopped(Named(s).(playing := true)), s.nextFiber), s.nextFiber, []))
  {
    var b, fiber := Named(s), s.nextFiber;
    var c := b.(playing := true);
    CallIsFiber(steps, s, Play);
    assert [SetMode(true), GetDriver, ForkDriver] == [SetMode(true)] + ([GetDriver] + [ForkDriver]);
    SetModeMoves(steps, b, fiber, true, [GetDriver] + [ForkDriver]);
    MovesPast(steps, b, fiber, SetMode(true), [GetDriver] + [ForkDriver], c);
    RestartLeads(steps, c, fiber);
    LeadsOn(steps, WithFiber(b, fiber, [SetMode(true)] + ([GetDriver] + [ForkDriver])), fiber,
            WithFiber(c, fiber, [GetDriver] + [ForkDriver]), WithFiber(Forked(Stopped(c), fiber), fiber, []));
  }

  /** A new driver runs, the old one is gone, and nothing else has moved. */
  ghost predicate DriverRestarted(s: State, t: State) {
    && t.driver.Some? && t.driver.value !in s.fibers && t.driver.value != s.nextFiber
    && t.driver.value in t.fibers
    && (s.driver.Some? ==> s.driver.value !in t.fibers)
    && (forall f :: f in s.fibers && Some(f) != s.driver ==> f in t.fibers && t.fibers[f] == s.fibers[f])
    && t.emitted == s.emitted && t.cursor == s.cursor && t.drained == s.drained && SameQueues(s, t)
  }

  /** Where the driver of `t` ends when only it runs: every remaining step is out. */
  ghost predicate DriverDelivers(steps: seq<Event>, t: State) {
    t.driver.Some? &&
    exists u ::
      && Leads(steps, t, t.driver.value, u) && AtEnd(u, t.driver.value)
      && u.emitted == t.emitted + FromTo(t.cursor, |steps|)
      && u.cursor == (if t.cursor < |steps| then |steps| else t.cursor)
      && u.drained == (t.drained || t.cursor < |steps|)
  }

  lemma ForkedDelivers(steps: seq<Event>, b: State, fiber: nat)
    requires fiber != b.nextFiber
    ensures DriverDelivers(steps, WithFiber(Forked(b, fiber), fiber, []))
  {
    var t := WithFiber(Forked(b, fiber), fiber, []);
    var driver := b.nextFiber;
    assert t == WithFiber(t, driver, [DriverLoop]);
    DriveLeads(steps, t, driver);
    EmittedFromMeaning(t, t.cursor, |steps|, |steps|);
    var u := WithFiber(EmittedFrom(t, t.cursor, |steps|, |steps|), driver, []);
    assert Leads(steps, t, t.driver.value, u) && AtEnd(u, t.driver.value);
  }

  /** `play` leaves a new driver behind that, run on alone, emits every remaining step. */
  lemma PlayMeaning(steps: seq<Event>, rate: real, actions: seq<Action>, t: State)
    requires EndsIn(steps, Execute(steps, rate, actions), Play, t)
    ensures var s := Execute(steps, rate, actions);
      t.playing && t.rate == s.rate && DriverRestarted(s, t) && DriverDelivers(steps, t)
  {
    var s := Execute(steps, rate, actions);
    ReachedNamesAreFresh(steps, rate, actions);
    PlayEnds(steps, s);
    var c := Named(s).(playing := true);
    OneEnd(steps, Next(steps, s, Call(Play)), s.nextFiber, t,
           WithFiber(Forked(Stopped(c), s.nextFiber), s.nextFiber, []));
    ForkedDelivers(steps, Stopped(c), s.nextFiber);
  }

  lemma SetRateEnds(steps: seq<Event>, s: State, rate: real)
    requires NamesFresh(s)
    ensures var b := Named(s).(rate := rate);
      EndsIn(steps, s, SetRate(rate),
             WithFiber(if s.playing then Forked(Stopped(b), s.nextFiber) else b, s.nextFiber, []))
  {
    var b, fiber := Named(s).(rate := rate), s.nextFiber;
    var u := WithFiber(if s.playing then Forked(Stopped(b), fiber) else b, fiber, []);
    CallIsFiber(steps, s, SetRate(rate));
    assert [StoreRate(rate), StartIfPlaying] == [StoreRate(rate)] + [StartIfPlaying];
    StoreRateMoves(steps, Named(s), fiber, rate, [StartIfPlaying]);
    MovesPast(steps, Named(s), fiber, StoreRate(rate), [StartIfPlaying], b);
    StartLeads(steps, b, fiber);
    LeadsOn(steps, WithFiber(Named(s), fiber, [StoreRate(rate)] + [StartIfPlaying]), fiber,
            WithFiber(b, fiber, [StartIfPlaying]), u);
  }

  lemma StartLeads(steps: seq<Event>, b: State, fiber: nat)
    requires fiber != b.nextFiber && (b.driver.Some? ==> b.driver.value != fiber)
    ensures Leads(steps, WithFiber(b, fiber, [StartIfPlaying]), fiber,
                  WithFiber(if b.playing then Forked(Stopped(b), fiber) else b, fiber, []))
  {
    assert [StartIfPlaying] + [] == [StartIfPlaying];
    DecidesMoves(steps, b, fiber, StartIfPlaying, []);
    if b.playing {
      RestartLeads(steps, b, fiber);
      assert [GetDriver, ForkDriver] + [] == [GetDriver] + [ForkDriver];
      MovesLeads(steps, b, fiber, StartIfPlaying, [], b, [GetDriver, ForkDriver],
                 WithFiber(Forked(Stopped(b), fiber), fiber, []));
    } else {
      MovesPast(steps, b, fiber, StartIfPlaying, [], b);
    }
  }

  /** `setRate` stores the rate, and restarts the driver exactly when playing. */
  lemma SetRateMeaning(steps: seq<Event>, first: real, actions: seq<Action>, rate: real, t: State)
    requires EndsIn(steps, Execute(steps, first, actions), SetRate(rate), t)
    ensures var s := Execute(steps, first, actions);
      && t.rate == rate && t.playing == s.playing
      && (s.playing ==> DriverRestarted(s, t) && DriverDelivers(steps, t))
      && (!s.playing ==>
            && t.driver == s.driver && t.emitted == s.emitted && t.cursor == s.cursor && t.drained == s.drained
            && SameQueues(s, t) && t.fibers == s.fibers[s.nextFiber := []])
  {
    var s := Execute(steps, first, actions);
    ReachedNamesAreFresh(steps, first, actions);
    SetRateEnds(steps, s, rate);
    var b := Named(s).(rate := rate);
    OneEnd(steps, Next(steps, s, Call(SetRate(rate))), s.nextFiber, t,
           WithFiber(if s.playing then Forked(Stopped(b), s.nextFiber) else b, s.nextFiber, []));
    ForkedDelivers(steps, Stopped(b), s.nextFiber);
  }

  // ----- shutting down -----

  function Ended(all: seq<Subscriber>, queues: seq<nat>): seq<Subscriber>
    decreases |queues|
  {
    if queues == [] then all
    else if queues[0] < |all| then Ended(all[queues[0] := EndQueue(all[queues[0]])], queues[1..])
    else Ended(all, queues[1..])
  }

  lemma {:induction false} EndedMeaning(all: seq<Subscriber>, queues: seq<nat>, q: nat)
    requires q < |all|
    ensures |Ended(all, queues)| == |all|
    ensures Ended(all, queues)[q] == if q in queues then all[q].(ended := true) else all[q]
    decreases |queues|
  {
    if queues == [] {
    } else {
      HeadAndTail(queues);
      EndedMeaning(if queues[0] < |all| then all[queues[0] := EndQueue(all[queues[0]])] else all, queues[1..], q);
    }
  }

  lemma EndQueuesMoves(steps: seq<Event>, b: State, fiber: nat, queues: seq<nat>, rest: seq<Op>)
    ensures queues == [] ==> Moves(steps, b, fiber, EndQueues(queues), rest, b, [])
    ensures queues != [] ==>
      var c := if queues[0] < |b.queues|
               then b.(queues := b.queues[queues[0] := EndQueue(b.queues[queues[0]])]) else b;
      Moves(steps, b, fiber, EndQueues(queues), rest, c, [EndQueues(queues[1..])])
  {
    FirstStep(steps, b, fiber, EndQueues(queues), rest);
    assert [] + rest == rest;
  }

  lemma {:induction false} EndQueuesLead(steps: seq<Event>, b: State, fiber: nat, queues: seq<nat>, rest: seq<Op>)
    ensures Leads(steps, WithFiber(b, fiber, [EndQueues(queues)] + rest), fiber,
                  WithFiber(b.(queues := Ended(b.queues, queues)), fiber, rest))
    decreases |queues|
  {
    EndQueuesMoves(steps, b, fiber, queues, rest);
    if queues == [] {
      MovesPast(steps, b, fiber, EndQueues(queues), rest, b);
    } else {
      var c := if queues[0] < |b.queues|
               then b.(queues := b.queues[queues[0] := EndQueue(b.queues[queues[0]])]) else b;
      EndQueuesLead(steps, c, fiber, queues[1..], rest);
      assert c.(queues := Ended(c.queues, queues[1..])) == b.(queues := Ended(b.queues, queues));
      MovesLeads(steps, b, fiber, EndQueues(queues), rest, c, [EndQueues(queues[1..])],
                 WithFiber(b.(queues := Ended(b.queues, queues)), fiber, rest));
    }
  }

  lemma EndAllLeads(steps: seq<Event>, b: State, fiber: nat)
    ensures Leads(steps, WithFiber(b, fiber, [GetSubscribersToEnd]), fiber,
                  WithFiber(b.(queues := Ended(b.queues, b.subscribers), subscribers := []), fiber, []))
  {
    var c := b.(queues := Ended(b.queues, b.subscribers));
    assert [GetSubscribersToEnd] + [] == [GetSubscribersToEnd] && [ClearSubscribers] + [] == [ClearSubscribers];
    assert [EndQueues(b.subscribers), ClearSubscribers] + [] == [EndQueues(b.subscribers)] + [ClearSubscribers];
    ClearSubscribersMoves(steps, c, fiber, []);
    MovesPast(steps, c, fiber, ClearSubscribers, [], c.(subscribers := []));
    EndQueuesLead(steps, b, fiber, b.subscribers, [ClearSubscribers]);
    LeadsOn(steps, WithFiber(b, fiber, [EndQueues(b.subscribers)] + [ClearSubscribers]), fiber,
            WithFiber(c, fiber, [ClearSubscribers]), WithFiber(c.(subscribers := []), fiber, []));
    DecidesMoves(steps, b, fiber, GetSubscribersToEnd, []);
    MovesLeads(steps, b, fiber, GetSubscribersToEnd, [], b, [EndQueues(b.subscribers), ClearSubscribers],
               WithFiber(c.(subscribers := []), fiber, []));
  }

  lemma ShutdownEnds(steps: seq<Event>, s: State)
    requires NamesFresh(s)
    ensures EndsIn(steps, s, Shutdown,
                   WithFiber(Stopped(Named(s)).(queues := Ended(s.queues, s.subscribers), subscribers := []),
                             s.nextFiber, []))
  {
    var b, fiber := Named(s), s.nextFiber;
    CallIsFiber(steps, s, Shutdown);
    assert [GetDriver, GetSubscribersToEnd] == [GetDriver] + [GetSubscribersToEnd];
    StopLeads(steps, b, fiber, [GetSubscribersToEnd]);
    EndAllLeads(steps, Stopped(b), fiber);
    LeadsOn(steps, WithFiber(b, fiber, [GetDriver] + [GetSubscribersToEnd]), fiber,
            WithFiber(Stopped(b), fiber, [GetSubscribersToEnd]),
            WithFiber(Stopped(b).(queues := Ended(s.queues, s.subscribers), subscribers := []), fiber, []));
  }

  /** `shutdown` stops the driver, ends the queue of every subscriber and forgets them all. */
  lemma ShutdownMeaning(steps: seq<Event>, rate: real, actions: seq<Action>, t: State)
    requires EndsIn(steps, Execute(steps, rate, actions), Shutdown, t)
    ensures var s := Execute(steps, rate, actions);
      && t.emitted == s.emitted && t.cursor == s.cursor && t.drained == s.drained
      && t.playing == s.playing && t.rate == s.rate && DriverStopped(s, t)
      && t.subscribers == [] && |t.queues| == |s.queues|
      && forall q :: 0 <= q < |s.queues| ==>
           t.queues[q] == if q in s.subscribers then s.queues[q].(ended := true) else s.queues[q]
  {
    var s := Execute(steps, rate, actions);
    ReachedNamesAreFresh(steps, rate, actions);
    ShutdownEnds(steps, s);
    OneEnd(steps, Next(steps, s, Call(Shutdown)), s.nextFiber, t,
           WithFiber(Stopped(Named(s)).(queues := Ended(s.queues, s.subscribers), subscribers := []),
                     s.nextFiber, []));
    forall q | 0 <= q < |s.queues|
      ensures |t.queues| == |s.queues|
      ensures t.queues[q] == if q in s.subscribers then s.queues[q].(ended := true) else s.queues[q]
    {
      EndedMeaning(s.queues, s.subscribers, q);
    }
    EndedLength(s.queues, s.subscribers);
  }

  lemma {:induction false} EndedLength(all: seq<Subscriber>, queues: seq<nat>)
    ensures |Ended(all, queues)| == |all|
    decreases |queues|
  {
    if queues == [] {
    } else {
      EndedLength(if queues[0] < |all| then all[queues[0] := EndQueue(all[queues[0]])] else all, queues[1..]);
    }
  }

  /** Every control that runs alone comes to an end. */
  lemma ControlsEnd(steps: seq<Event>, rate: real, actions: seq<Action>, control: Control) returns (t: State)
    ensures EndsIn(steps, Execute(steps, rate, actions), control, t)
  {
    var s := Execute(steps, rate, actions);
    ReachedNamesAreFresh(steps, rate, actions);
    match control
    case Play =>
      PlayEnds(steps, s);
      t := WithFiber(Forked(Stopped(Named(s).(playing := true)), s.nextFiber), s.nextFiber, []);
    case Pause =>
      PauseEnds(steps, s);
      t := WithFiber(Parked(s), s.nextFiber, []);
    case StepOnce =>
      StepEnds(steps, s);
      t := WithFiber(Stepped(Parked(s), |steps|), s.nextFiber, []);
    case SeekTo(k) =>
      SeekEnds(steps, s, k);
      t := WithFiber(EmittedFrom(Parked(s), s.cursor, ClampCursor(k + 1, |steps|), |steps|), s.nextFiber, []);
    case SetRate(next) =>
      SetRateEnds(steps, s, next);
      var b := Named(s).(rate := next);
      t := WithFiber(if s.playing then Forked(Stopped(b), s.nextFiber) else b, s.nextFiber, []);
    case Shutdown =>
      ShutdownEnds(steps, s);
      t := WithFiber(Stopped(Named(s)).(queues := Ended(s.queues, s.subscribers), subscribers := []),
                     s.nextFiber, []);
  }
}
