/** Delivery order under a sink that may refuse entries. What it refuses stays in its
    slot behind the read index until a later store overwrites it. */
module AsyncRefusals {
  import opened Bits
  import opened AsyncProtocol
  import opened AsyncSafety
  import opened AsyncProof
  import opened AsyncTheorems
  import opened AsyncOrder
  import opened AsyncPlacement

  /** `a` arises from `b` by leaving elements out. */
  predicate Within(a: seq<Call>, b: seq<Call>)
    decreases |b|
  {
    a == [] ||
    (b != [] && (Within(a, b[..|b| - 1])
                 || (a[|a| - 1] == b[|b| - 1] && Within(a[..|a| - 1], b[..|b| - 1]))))
  }

  lemma WithinOneMore(a: seq<Call>, b: seq<Call>, x: Call)
    requires Within(a, b)
    ensures Within(a, b + [x]) && Within(a + [x], b + [x])
  {
    assert (b + [x])[..|b|] == b && (a + [x])[..|a|] == a;
  }

  lemma {:induction false} WithinLonger(a: seq<Call>, ids: seq<Call>, j: nat, k: nat)
    requires j <= k <= |ids| && Within(a, ids[..j])
    ensures Within(a, ids[..k])
    decreases k
  {
    if j < k {
      WithinLonger(a, ids, j, k - 1);
      PrefixGrows(ids, k - 1);
      WithinOneMore(a, ids[..k - 1], ids[k - 1]);
    }
  }

  // ---- the invariant ---------------------------------------------------------

  ghost predicate Ascending(s: State)
  {
    && Frontier(s) <= |s.claims| && Within(s.delivered, s.claims[..Frontier(s)])
    && HandRight(s) && PassedStored(s)
  }

  lemma CallKeepsAscending(c: Config, s: State, id: Call, giveUp: bool, spawn: Task)
    requires Ascending(s) && CallEnabled(c, s, id, spawn)
    ensures Ascending(CallNext(c, s, id, giveUp, spawn))
  {
    var s' := CallNext(c, s, id, giveUp, spawn);
    assert s.claims <= s'.claims && Frontier(s') == Frontier(s) && s'.delivered == s.delivered;
    assert s'.claims[..Frontier(s)] == s.claims[..Frontier(s)];
    assert forall x :: IsPublished(s, x) ==> IsPublished(s', x);
  }

  lemma DeliveryKeepsAscending(c: Config, s: State, shard: nat)
    requires Ascending(s) && FlushEnabled(c, s, shard) && s.flusher.FPut?
    requires IsPublished(s, s.flusher.entry)
    ensures Ascending(FlushNext(c, s, true, shard))
  {
    var i, s' := s.flusher.i, FlushNext(c, s, true, shard);
    assert s'.delivered == s.delivered + [s.claims[i]] && s'.claims == s.claims && s'.calls == s.calls;
    assert Frontier(s') == i + 1;
    PrefixGrows(s.claims, i);
    WithinOneMore(s.delivered, s.claims[..i], s.claims[i]);
  }

  lemma RefusalKeepsAscending(c: Config, s: State, shard: nat)
    requires FlushOk(s) && Indices(s) && Ascending(s) && FlushEnabled(c, s, shard) && s.flusher.FPut?
    requires DropsStored(s, StepFlush(false, shard))
    ensures Ascending(FlushNext(c, s, false, shard))
  {
    var s' := FlushNext(c, s, false, shard);
    WithinLonger(s.delivered, s.claims, s.flusher.i, s.flusher.end);
    assert Frontier(s') == s.flusher.end && s'.delivered == s.delivered && s'.claims == s.claims && s'.calls == s.calls;
  }

  lemma FlushKeepsAscending(c: Config, s: State, sinkOk: bool, shard: nat)
    requires FlushOk(s) && Indices(s) && HandOk(s) && Ascending(s) && FlushEnabled(c, s, shard)
    requires Finds(s, StepFlush(sinkOk, shard)) && DropsStored(s, StepFlush(sinkOk, shard))
    ensures Ascending(FlushNext(c, s, sinkOk, shard))
  {
    if s.flusher.FPut? {
      if sinkOk {
        DeliveryKeepsAscending(c, s, shard);
      } else {
        RefusalKeepsAscending(c, s, shard);
      }
    }
  }

  lemma StepKeepsAscending(c: Config, s: State, a: Action)
    requires FlushOk(s) && Indices(s) && HandOk(s) && Ascending(s) && Enabled(c, s, a)
    requires Finds(s, a) && DropsStored(s, a)
    ensures Ascending(Next(c, s, a))
  {
    match a
    case NewCall(id) => assert forall x :: IsPublished(Next(c, s, a), x) <==> IsPublished(s, x);
    case StepCall(id, giveUp, spawn) => CallKeepsAscending(c, s, id, giveUp, spawn);
    case StepFlush(sinkOk, shard) => FlushKeepsAscending(c, s, sinkOk, shard);
    case StepWaiting(task) => assert Next(c, s, a).claims == s.claims;
    case StepResize => ResizeIsQuiet(c, s);
  }

  lemma {:induction false} AscendingFrom(c: Config, s: State, run: seq<Action>)
    requires Inv(c, s) && Ascending(s) && Placed(s, false) && Possible(c, s, run)
    requires AllTimely(c, s, run) && AllCareful(c, s, run) && AllDropsStored(c, s, run)
    ensures Ascending(After(c, s, run))
    decreases |run|
  {
    if run != [] {
      var a, s' := run[0], Next(c, s, run[0]);
      InvBase(c, s);
      StepKeepsInv(c, s, a);
      TimelyFinds(c, s, a, false);
      StepKeepsAscending(c, s, a);
      StepKeepsPlaced(c, s, a, false);
      AscendingFrom(c, s', run[1..]);
    }
  }

  /** However the sink fails, as long as no flush takes an index before its store, no
      store misses a growth and no refusal gives up an index before its store, what is
      delivered is a subsequence of what was claimed. */
  lemma DeliveriesAscend(c: Config, run: seq<Action>)
    requires IsPow2(c.size) && Possible(c, Init(c), run)
    requires AllTimely(c, Init(c), run) && AllCareful(c, Init(c), run) && AllDropsStored(c, Init(c), run)
    ensures Within(Reached(c, run).delivered, Reached(c, run).claims)
  {
    var s := Reached(c, run);
    InitInv(c);
    AscendingFrom(c, Init(c), run);
    WithinLonger(s.delivered, s.claims, Frontier(s), |s.claims|);
    assert s.claims[..|s.claims|] == s.claims;
  }
}
