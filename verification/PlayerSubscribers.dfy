/** A subscriber that keeps pulling gets what the player promises (packages/qa-scenario/src/player.ts). */
module PlayerSubscribers {
  import opened Sequences
  import opened ScenarioPlayer

  function Pulls(q: nat, n: nat): seq<Action> {
    if n == 0 then [] else Pulls(q, n - 1) + [Pull(q)]
  }

  lemma ExecuteOfSnoc(steps: seq<Event>, rate: real, actions: seq<Action>, action: Action)
    ensures Execute(steps, rate, actions + [action]) == Next(steps, Execute(steps, rate, actions), action)
  {
    assert (actions + [action])[..|actions|] == actions;
  }

  /** How many stream elements the subscriber has not looked at yet. */
  function Waiting(u: Subscriber): nat {
    |u.backlog| + |u.queue|
  }

  /** The element a pull takes is a step index. */
  lemma NextIsStep(steps: seq<Event>, emitted: seq<nat>, u: Subscriber)
    requires SubscriberOk(steps, emitted, u) && u.phase == Streaming
    ensures u.backlog != [] ==> u.backlog[0] < |steps|
    ensures u.backlog == [] && u.queue != [] ==> u.queue[0] < |steps|
  {
    if u.backlog != [] {
      MoveOne(u.consumed, u.backlog, u.queue);
      HeadInRange(steps, emitted, u, u.backlog[0], u.backlog[1..] + u.queue);
    } else if u.queue != [] {
      assert u.consumed + [] + u.queue == u.consumed + u.queue + [];
      MoveOne(u.consumed, u.queue, []);
      HeadInRange(steps, emitted, u, u.queue[0], u.queue[1..] + []);
    }
  }

  lemma PullShortens(steps: seq<Event>, u: Subscriber)
    requires u.backlog != [] ==> u.backlog[0] < |steps|
    requires u.backlog == [] && u.queue != [] ==> u.queue[0] < |steps|
    ensures Waiting(PullOne(steps, u)) == if Waiting(u) == 0 then 0 else Waiting(u) - 1
    ensures PullOne(steps, u).fromSequence == u.fromSequence
  {
  }

  /** One pull takes one element, whatever the filter makes of it. */
  ghost predicate TookOne(emitted: seq<nat>, u: Subscriber, v: Subscriber) {
    && v.phase == Streaming && v.fromSequence == u.fromSequence
    && Trace(emitted, v) == Trace(emitted, u)
    && Waiting(v) == if Waiting(u) == 0 then 0 else Waiting(u) - 1
  }

  lemma PullTakesOne(steps: seq<Event>, emitted: seq<nat>, u: Subscriber)
    requires Increasing(steps) && SubscriberOk(steps, emitted, u) && u.phase == Streaming
    ensures TookOne(emitted, u, PullOne(steps, u))
  {
    PulledOne(steps, emitted, u);
    PullKeepsFlags(steps, u);
    NextIsStep(steps, emitted, u);
    PullShortens(steps, u);
  }

  /** `t` is `s` after `q` has taken `n` elements. */
  ghost predicate Taken(s: State, t: State, q: nat, n: nat) {
    && q < |s.queues| == |t.queues|
    && t.emitted == s.emitted && t.cursor == s.cursor && t.subscribers == s.subscribers
    && t.queues[q].phase == Streaming && t.queues[q].fromSequence == s.queues[q].fromSequence
    && Trace(t.emitted, t.queues[q]) == Trace(s.emitted, s.queues[q])
    && Waiting(t.queues[q]) == if n < Waiting(s.queues[q]) then Waiting(s.queues[q]) - n else 0
  }

  lemma TakenOneMore(steps: seq<Event>, s: State, t: State, q: nat, n: nat)
    requires Increasing(steps) && Inv(steps, t) && Taken(s, t, q, n)
    ensures Taken(s, Next(steps, t, Pull(q)), q, n + 1)
  {
    PullTakesOne(steps, t.emitted, t.queues[q]);
  }

  lemma {:induction false} PullsTake(steps: seq<Event>, rate: real, actions: seq<Action>, q: nat, n: nat)
    requires Increasing(steps)
    requires var s := Execute(steps, rate, actions); q < |s.queues| && s.queues[q].phase == Streaming
    ensures Taken(Execute(steps, rate, actions), Execute(steps, rate, actions + Pulls(q, n)), q, n)
  {
    if n == 0 {
      assert actions + [] == actions;
    } else {
      PullsTake(steps, rate, actions, q, n - 1);
      TakenInRun(steps, rate, Execute(steps, rate, actions), actions + Pulls(q, n - 1), q, n - 1);
      Regroup(actions, Pulls(q, n - 1), [Pull(q)]);
    }
  }

  lemma TakenInRun(steps: seq<Event>, rate: real, s: State, actions: seq<Action>, q: nat, n: nat)
    requires Increasing(steps) && Taken(s, Execute(steps, rate, actions), q, n)
    ensures Taken(s, Execute(steps, rate, actions + [Pull(q)]), q, n + 1)
  {
    RunsKeepInv(steps, rate, actions);
    ExecuteOfSnoc(steps, rate, actions, Pull(q));
    TakenOneMore(steps, s, Execute(steps, rate, actions), q, n);
  }

  lemma NothingWaits(emitted: seq<nat>, u: Subscriber)
    requires Waiting(u) == 0 && u.phase == Streaming
    ensures u.backlog == [] && u.queue == [] && Trace(emitted, u) == u.consumed
  {
    assert u.consumed + [] + [] == u.consumed;
  }

  /**
   * From any state, pulling as often as there are elements waiting leaves none, and the subscriber has
   * received exactly the steps past its start among all it had been sent.
   */
  lemma PullsDeliver(steps: seq<Event>, rate: real, actions: seq<Action>, q: nat)
    requires Increasing(steps)
    requires var s := Execute(steps, rate, actions); q < |s.queues| && s.queues[q].phase == Streaming
    ensures var s := Execute(steps, rate, actions);
      var u := s.queues[q];
      var t := Execute(steps, rate, actions + Pulls(q, Waiting(u)));
      && q < |t.queues| && Waiting(t.queues[q]) == 0
      && High(u.consumed + u.backlog + u.queue) <= |steps|
      && t.queues[q].received == Above(steps[..High(u.consumed + u.backlog + u.queue)], u.fromSequence)
  {
    var s := Execute(steps, rate, actions);
    var n := Waiting(s.queues[q]);
    var t := Execute(steps, rate, actions + Pulls(q, n));
    PullsTake(steps, rate, actions, q, n);
    NothingWaits(t.emitted, t.queues[q]);
    RunsKeepInv(steps, rate, actions + Pulls(q, n));
    assert SubscriberOk(steps, t.emitted, t.queues[q]);
  }

  // ----- a new subscriber -----

  /** Opening a stream, registering its queue and reading the backlog. */
  function Subscription(q: nat, fromSequence: nat): seq<Action> {
    [OpenStream(fromSequence)] + [Register(q)] + [ReadBacklog(q)]
  }

  lemma Subscribed(steps: seq<Event>, s: State, fromSequence: nat)
    ensures var q := |s.queues|;
      var t := Next(steps, Next(steps, Next(steps, s, OpenStream(fromSequence)), Register(q)), ReadBacklog(q));
      && t.queues == s.queues + [Subscriber(fromSequence, Streaming, s.emitted, [], false, [], fromSequence, [])]
      && t.subscribers == s.subscribers + [q] && t.emitted == s.emitted
  {
    var q := |s.queues|;
    var u := Subscriber(fromSequence, Opened, [], [], false, [], fromSequence, []);
    assert (s.queues + [u])[q] == u;
    assert (s.queues + [u])[q := u.(phase := Registered)] == s.queues + [u.(phase := Registered)];
    assert (s.queues + [u.(phase := Registered)])[q := u.(phase := Streaming, backlog := s.emitted)]
        == s.queues + [u.(phase := Streaming, backlog := s.emitted)];
  }

  lemma SubscriptionRun(steps: seq<Event>, rate: real, actions: seq<Action>, fromSequence: nat)
    ensures var s := Execute(steps, rate, actions);
      var t := Execute(steps, rate, actions + Subscription(|s.queues|, fromSequence));
      && t.queues == s.queues + [Subscriber(fromSequence, Streaming, s.emitted, [], false, [], fromSequence, [])]
      && t.subscribers == s.subscribers + [|s.queues|] && t.emitted == s.emitted
  {
    var s := Execute(steps, rate, actions);
    var q := |s.queues|;
    ExecuteOfSnoc(steps, rate, actions, OpenStream(fromSequence));
    ExecuteOfSnoc(steps, rate, actions + [OpenStream(fromSequence)], Register(q));
    ExecuteOfSnoc(steps, rate, actions + [OpenStream(fromSequence)] + [Register(q)], ReadBacklog(q));
    Regroup(actions, [OpenStream(fromSequence)], [Register(q)]);
    Regroup(actions, [OpenStream(fromSequence)] + [Register(q)], [ReadBacklog(q)]);
    Subscribed(steps, s, fromSequence);
  }

  /**
   * Whoever subscribes at any moment and keeps pulling gets exactly the steps emitted so far that are past
   * its `fromSequence`, each once and in order, and is registered for those to come.
   */
  lemma SubscribingDelivers(steps: seq<Event>, rate: real, actions: seq<Action>, fromSequence: nat)
    requires Increasing(steps)
    ensures var s := Execute(steps, rate, actions);
      var q := |s.queues|;
      var t := Execute(steps, rate, actions + Subscription(q, fromSequence) + Pulls(q, |s.emitted|));
      && High(s.emitted) <= |steps| && Live(t, q)
      && t.queues[q].received == Above(steps[..High(s.emitted)], fromSequence)
  {
    var s := Execute(steps, rate, actions);
    var q := |s.queues|;
    SubscriptionRun(steps, rate, actions, fromSequence);
    var before := actions + Subscription(q, fromSequence);
    WholeBacklog(Execute(steps, rate, before).queues[q], s.emitted);
    PullsDeliver(steps, rate, before, q);
    PullsKeepOpen(steps, rate, before, q, |s.emitted|);
  }

  lemma WholeBacklog(u: Subscriber, emitted: seq<nat>)
    requires u.consumed == [] && u.backlog == emitted && u.queue == []
    ensures u.consumed + u.backlog + u.queue == emitted && Waiting(u) == |emitted|
  {
  }

  /** Pulling changes neither the subscriber list nor whether the queue has ended. */
  ghost predicate SameOpen(s: State, t: State, q: nat) {
    && q < |s.queues| == |t.queues|
    && t.subscribers == s.subscribers && t.queues[q].ended == s.queues[q].ended
  }

  lemma PullKeepsOpen(steps: seq<Event>, s: State, t: State, q: nat)
    requires SameOpen(s, t, q)
    ensures SameOpen(s, Next(steps, t, Pull(q)), q)
  {
    PullKeepsFlags(steps, t.queues[q]);
  }

  lemma {:induction false} PullsKeepOpen(steps: seq<Event>, rate: real, actions: seq<Action>, q: nat, n: nat)
    requires q < |Execute(steps, rate, actions).queues|
    ensures SameOpen(Execute(steps, rate, actions), Execute(steps, rate, actions + Pulls(q, n)), q)
  {
    if n == 0 {
      assert actions + [] == actions;
    } else {
      PullsKeepOpen(steps, rate, actions, q, n - 1);
      ExecuteOfSnoc(steps, rate, actions + Pulls(q, n - 1), Pull(q));
      Regroup(actions, Pulls(q, n - 1), [Pull(q)]);
      PullKeepsOpen(steps, Execute(steps, rate, actions), Execute(steps, rate, actions + Pulls(q, n - 1)), q);
    }
  }
}
