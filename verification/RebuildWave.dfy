/** The longest remaining blocked-by chain (scripts/rebuild-wave.ts), memoised. */
module RebuildWave {

  /** The finished ids and what each ticket is blocked by. */
  datatype Plan = Plan(done: set<string>, blocked: map<string, seq<string>>)

  function BlockedBy(plan: Plan, id: string): seq<string> {
    if id in plan.blocked then plan.blocked[id] else []
  }

  /** Unfinished ids ending at `id`, each blocking the next. */
  ghost predicate IsChainTo(plan: Plan, chain: seq<string>, id: string) {
    && chain != [] && chain[|chain| - 1] == id && id !in plan.done
    && (|chain| > 1 ==>
          && chain[|chain| - 2] in BlockedBy(plan, id)
          && IsChainTo(plan, chain[..|chain| - 1], chain[|chain| - 2]))
  }

  ghost predicate Blocks(plan: Plan, chain: seq<string>, i: nat) {
    0 < i < |chain| && chain[i - 1] in BlockedBy(plan, chain[i])
  }

  /** Position by position: nobody on a chain is finished, and each id is blocked by the one before it. */
  lemma {:induction false} ChainMeaning(plan: Plan, chain: seq<string>, id: string)
    ensures IsChainTo(plan, chain, id) <==>
              && chain != [] && chain[|chain| - 1] == id
              && (forall x :: x in chain ==> x !in plan.done)
              && (forall i :: 0 < i < |chain| ==> Blocks(plan, chain, i))
  {
    if |chain| <= 1 {
    } else {
      var before := chain[..|chain| - 1];
      ChainMeaning(plan, before, chain[|chain| - 2]);
      assert chain == before + [chain[|chain| - 1]];
      forall i | 0 < i < |before| ensures Blocks(plan, before, i) <==> Blocks(plan, chain, i) {
      }
      assert Blocks(plan, chain, |chain| - 1) <==> chain[|chain| - 2] in BlockedBy(plan, chain[|chain| - 1]);
    }
  }

  /** At least as long as every chain to `id`; the empty chain only when there is none. */
  ghost predicate IsLongest(plan: Plan, length: nat, id: string) {
    forall c :: IsChainTo(plan, c, id) ==> |c| <= length
  }

  ghost predicate Acyclic(plan: Plan) {
    forall c, id :: IsChainTo(plan, c, id) && |c| >= 2 ==> c[0] != id
  }

  /** `id` holds up `other`, directly or through others. */
  ghost predicate HoldsUp(plan: Plan, id: string, other: string) {
    exists c :: |c| >= 2 && c[0] == id && IsChainTo(plan, c, other)
  }

  lemma {:induction false} ExtendChain(plan: Plan, chain: seq<string>, b: string, id: string)
    requires IsChainTo(plan, chain, b) && id !in plan.done && b in BlockedBy(plan, id)
    ensures IsChainTo(plan, chain + [id], id)
  {
    assert (chain + [id])[..|chain|] == chain;
  }

  lemma {:induction false} PrependChain(plan: Plan, b: string, chain: seq<string>, id: string)
    requires IsChainTo(plan, chain, id) && b !in plan.done && b in BlockedBy(plan, chain[0])
    ensures IsChainTo(plan, [b] + chain, id)
  {
    if |chain| == 1 {
      assert ([b] + chain)[..1] == [b];
    } else {
      var before := chain[..|chain| - 1];
      PrependChain(plan, b, before, chain[|chain| - 2]);
      assert ([b] + chain)[..|chain|] == [b] + before;
    }
  }

  lemma SingleChain(plan: Plan, id: string)
    requires id !in plan.done
    ensures IsChainTo(plan, [id], id)
  {
  }

  lemma DirectlyHoldsUp(plan: Plan, b: string, id: string)
    requires b !in plan.done && id !in plan.done && b in BlockedBy(plan, id)
    ensures HoldsUp(plan, b, id)
  {
    SingleChain(plan, b);
    ExtendChain(plan, [b], b, id);
    assert IsChainTo(plan, [b] + [id], id);
  }

  lemma HoldsUpThrough(plan: Plan, b: string, id: string, other: string)
    requires b !in plan.done && b in BlockedBy(plan, id) && HoldsUp(plan, id, other)
    ensures HoldsUp(plan, b, other)
  {
    var c :| |c| >= 2 && c[0] == id && IsChainTo(plan, c, other);
    PrependChain(plan, b, c, other);
    assert ([b] + c)[0] == b;
  }

  lemma AcyclicHoldsUp(plan: Plan, id: string)
    requires Acyclic(plan)
    ensures !HoldsUp(plan, id, id)
  {
  }

  /** No chain to `id` is longer than one more than the chains to what blocks it. */
  lemma LongestThroughBlockers(plan: Plan, id: string, length: nat)
    requires Bounds(plan, length, BlockedBy(plan, id))
    ensures IsLongest(plan, length + 1, id)
  {
    forall c | IsChainTo(plan, c, id) ensures |c| <= length + 1 {
      if |c| > 1 {
        assert IsChainTo(plan, c[..|c| - 1], c[|c| - 2]);
      }
    }
  }

  lemma LongerStillLongest(plan: Plan, shorter: nat, longer: nat, id: string)
    requires shorter <= longer && IsLongest(plan, shorter, id)
    ensures IsLongest(plan, longer, id)
  {
  }

  lemma DoneHasNoChain(plan: Plan, id: string)
    requires id in plan.done
    ensures IsLongest(plan, 0, id)
  {
  }

  /** Every id the plan mentions. */
  function Known(plan: Plan): set<string> {
    plan.blocked.Keys + set id, b | id in plan.blocked && b in plan.blocked[id] :: b
  }

  /** Each entry is a chain to its id. */
  ghost predicate Sound(plan: Plan, memo: map<string, seq<string>>) {
    forall id :: id in memo ==> IsChainTo(plan, memo[id], id)
  }

  /** Entries of ids not being computed are final. */
  ghost predicate Settled(plan: Plan, memo: map<string, seq<string>>, busy: set<string>) {
    forall id :: id in memo && id !in busy ==> IsLongest(plan, |memo[id]|, id)
  }

  ghost predicate HoldsUpAll(plan: Plan, id: string, busy: set<string>) {
    id !in plan.done ==> forall p :: p in busy ==> HoldsUp(plan, id, p)
  }

  lemma CachedIsFinal(plan: Plan, memo: map<string, seq<string>>, busy: set<string>, id: string)
    requires Acyclic(plan) && Settled(plan, memo, busy) && HoldsUpAll(plan, id, busy) && id !in plan.done && id in memo
    ensures IsLongest(plan, |memo[id]|, id)
  {
    AcyclicHoldsUp(plan, id);
  }

  lemma BlockerHoldsUpAll(plan: Plan, b: string, id: string, busy: set<string>)
    requires id !in plan.done && b in BlockedBy(plan, id) && HoldsUpAll(plan, id, busy)
    ensures HoldsUpAll(plan, b, busy + {id})
  {
    if b !in plan.done {
      forall p | p in busy + {id} ensures HoldsUp(plan, b, p) {
        if p == id {
          DirectlyHoldsUp(plan, b, id);
        } else {
          HoldsUpThrough(plan, b, id, p);
        }
      }
    }
  }

  lemma SoundWith(plan: Plan, memo: map<string, seq<string>>, id: string, chain: seq<string>)
    requires Sound(plan, memo) && IsChainTo(plan, chain, id)
    ensures Sound(plan, memo[id := chain])
  {
  }

  lemma SettledWhileBusy(plan: Plan, memo: map<string, seq<string>>, busy: set<string>, id: string, chain: seq<string>)
    requires Settled(plan, memo, busy)
    ensures Settled(plan, memo[id := chain], busy + {id})
  {
  }

  lemma SettledOnceDone(plan: Plan, memo: map<string, seq<string>>, busy: set<string>, id: string, chain: seq<string>)
    requires Settled(plan, memo, busy + {id}) && IsLongest(plan, |chain|, id)
    ensures Settled(plan, memo[id := chain], busy)
  {
  }

  /** `length` bounds the chains to every one of `ids`. */
  ghost predicate Bounds(plan: Plan, length: nat, ids: seq<string>) {
    forall id :: id in ids ==> IsLongest(plan, length, id)
  }

  lemma BoundsOneMore(plan: Plan, ids: seq<string>, i: nat, known: nat, found: nat, length: nat)
    requires i < |ids| && Bounds(plan, known, ids[..i]) && IsLongest(plan, found, ids[i])
    requires known <= length && found <= length
    ensures Bounds(plan, length, ids[..i + 1])
  {
    forall id | id in ids[..i + 1] ensures IsLongest(plan, length, id) {
      if id == ids[i] {
        LongerStillLongest(plan, found, length, id);
      } else {
        assert id in ids[..i];
        LongerStillLongest(plan, known, length, id);
      }
    }
  }

  lemma SubsetIsSmaller(small: set<string>, large: set<string>)
    requires small <= large
    ensures |small| <= |large|
  {
    assert large == small + (large - small);
  }

  lemma FewerUnknown(plan: Plan, small: map<string, seq<string>>, large: map<string, seq<string>>)
    requires small.Keys <= large.Keys
    ensures |Known(plan) - large.Keys| <= |Known(plan) - small.Keys|
  {
    SubsetIsSmaller(Known(plan) - large.Keys, Known(plan) - small.Keys);
  }

  lemma BlockerIsKnown(plan: Plan, b: string, id: string)
    requires b in BlockedBy(plan, id)
    ensures b in Known(plan)
  {
  }

  /** What a call needs for a final answer: `busy` is the recursion stack. */
  ghost predicate Ready(plan: Plan, memo: map<string, seq<string>>, busy: set<string>, id: string) {
    Acyclic(plan) && Settled(plan, memo, busy) && HoldsUpAll(plan, id, busy)
  }

  lemma CachedIfReady(plan: Plan, memo: map<string, seq<string>>, busy: set<string>, id: string)
    requires id !in plan.done && id in memo
    ensures Ready(plan, memo, busy, id) ==> IsLongest(plan, |memo[id]|, id)
  {
    if Ready(plan, memo, busy, id) {
      CachedIsFinal(plan, memo, busy, id);
    }
  }

  /** The entry made before the blockers are looked at. */
  lemma Entered(plan: Plan, memo: map<string, seq<string>>, busy: set<string>, id: string)
    requires Sound(plan, memo) && id !in plan.done && id !in memo && id in Known(plan)
    ensures Sound(plan, memo[id := [id]])
    ensures Ready(plan, memo, busy, id) ==> Settled(plan, memo[id := [id]], busy + {id})
    ensures |Known(plan) - memo[id := [id]].Keys| < |Known(plan) - memo.Keys|
  {
    SingleChain(plan, id);
    SoundWith(plan, memo, id, [id]);
    if Ready(plan, memo, busy, id) {
      SettledWhileBusy(plan, memo, busy, id, [id]);
    }
    assert Known(plan) - memo[id := [id]].Keys == (Known(plan) - memo.Keys) - {id};
  }

  /** The entry made after the loop over the blockers. */
  lemma Left(plan: Plan, memo: map<string, seq<string>>, id: string, longest: seq<string>, end: string)
    requires Sound(plan, memo) && id !in plan.done
    requires longest != [] ==> end in BlockedBy(plan, id) && IsChainTo(plan, longest, end)
    ensures IsChainTo(plan, longest + [id], id) && Sound(plan, memo[id := longest + [id]])
  {
    if longest != [] {
      ExtendChain(plan, longest, end, id);
    } else {
      SingleChain(plan, id);
      assert longest + [id] == [id];
    }
    SoundWith(plan, memo, id, longest + [id]);
  }

  lemma LeftForGood(plan: Plan, memo: map<string, seq<string>>, busy: set<string>, id: string, longest: seq<string>)
    requires Settled(plan, memo, busy + {id}) && Bounds(plan, |longest|, BlockedBy(plan, id))
    ensures Settled(plan, memo[id := longest + [id]], busy) && IsLongest(plan, |longest + [id]|, id)
  {
    LongestThroughBlockers(plan, id, |longest|);
    SettledOnceDone(plan, memo, busy, id, longest + [id]);
  }

  class Waves {
    const plan: Plan
    var memo: map<string, seq<string>>

    constructor (plan: Plan)
      ensures this.plan == plan && memo == map[]
    {
      this.plan := plan;
      memo := map[];
    }

    /**
     * `busy` is the recursion stack. The result is a real chain on every plan, cyclic or not; the ids
     * without an entry decrease. On an acyclic plan it is a longest one.
     */
    method Chain(id: string, ghost busy: set<string>) returns (chain: seq<string>)
      requires id in Known(plan) && Sound(plan, memo)
      modifies this
      ensures Sound(plan, memo) && old(memo).Keys <= memo.Keys
      ensures id in plan.done ==> chain == []
      ensures id !in plan.done ==> IsChainTo(plan, chain, id) && id in memo
      ensures Ready(plan, old(memo), busy, id) ==> Settled(plan, memo, busy) && IsLongest(plan, |chain|, id)
      decreases |Known(plan) - memo.Keys|, 0
    {
      if id in plan.done {
        DoneHasNoChain(plan, id);
        return [];
      }
      if id in memo {
        CachedIfReady(plan, memo, busy, id);
        return memo[id];
      }
      ghost var final := Ready(plan, memo, busy, id);
      Entered(plan, memo, busy, id);
      memo := memo[id := [id]];
      var longest, end := LongestBlocker(id, busy, final);
      chain := longest + [id];
      Left(plan, memo, id, longest, end);
      if final {
        LeftForGood(plan, memo, busy, id, longest);
      }
      memo := memo[id := chain];
    }

    /** The loop over what blocks `id`. */
    method LongestBlocker(id: string, ghost busy: set<string>, ghost final: bool)
        returns (longest: seq<string>, ghost end: string)
      requires id in Known(plan) && id !in plan.done && id in memo && Sound(plan, memo)
      requires final ==> Acyclic(plan) && Settled(plan, memo, busy + {id}) && HoldsUpAll(plan, id, busy)
      modifies this
      ensures Sound(plan, memo) && old(memo).Keys <= memo.Keys
      ensures longest != [] ==> end in BlockedBy(plan, id) && IsChainTo(plan, longest, end)
      ensures final ==> Settled(plan, memo, busy + {id})
      ensures final ==> Bounds(plan, |longest|, BlockedBy(plan, id))
      decreases |Known(plan) - memo.Keys|, 1
    {
      longest, end := [], id;
      var blockers := BlockedBy(plan, id);
      for i := 0 to |blockers|
        invariant Sound(plan, memo) && old(memo).Keys <= memo.Keys
        invariant longest != [] ==> end in blockers && IsChainTo(plan, longest, end)
        invariant final ==> Settled(plan, memo, busy + {id})
        invariant final ==> Bounds(plan, |longest|, blockers[..i])
      {
        var b := blockers[i];
        if final {
          BlockerHoldsUpAll(plan, b, id, busy);
        }
        FewerUnknown(plan, old(memo), memo);
        BlockerIsKnown(plan, b, id);
        ghost var before := longest;
        var c := Chain(b, busy + {id});
        if |c| > |longest| {
          longest, end := c, b;
        }
        if final {
          BoundsOneMore(plan, blockers, i, |before|, |c|, |longest|);
        }
      }
      assert blockers[..|blockers|] == blockers;
    }

    /** The longest chain over all tickets, in the order given. */
    method CriticalPath(tickets: seq<string>) returns (critical: seq<string>, ghost end: string)
      requires (forall t :: t in tickets ==> t in Known(plan)) && memo == map[]
      modifies this
      ensures critical != [] ==> end in tickets && IsChainTo(plan, critical, end)
      ensures Acyclic(plan) ==> Bounds(plan, |critical|, tickets)
    {
      critical, end := [], "";
      for i := 0 to |tickets|
        invariant Sound(plan, memo) && (Acyclic(plan) ==> Settled(plan, memo, {}))
        invariant critical != [] ==> end in tickets && IsChainTo(plan, critical, end)
        invariant Acyclic(plan) ==> Bounds(plan, |critical|, tickets[..i])
      {
        ghost var before := critical;
        var c := Chain(tickets[i], {});
        if |c| > |critical| {
          critical, end := c, tickets[i];
        }
        if Acyclic(plan) {
          BoundsOneMore(plan, tickets, i, |before|, |c|, |critical|);
        }
      }
      assert tickets[..|tickets|] == tickets;
    }
  }
}
