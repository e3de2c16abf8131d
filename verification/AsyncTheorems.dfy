/** What holds of every run of the ring buffer, from its construction on. */
module AsyncTheorems {
  import opened Bits
  import opened Wrappers
  import opened AsyncProtocol
  import opened AsyncSafety
  import opened AsyncProof

  /** The state after a run from a freshly built ring. */
  function Reached(c: Config, run: seq<Action>): State
    requires Possible(c, Init(c), run)
  {
    After(c, Init(c), run)
  }

  lemma ReachedInv(c: Config, run: seq<Action>)
    requires IsPow2(c.size) && Possible(c, Init(c), run)
    ensures Inv(c, Reached(c, run))
  {
    InitInv(c);
    RunKeepsInv(c, Init(c), run);
  }

  // ---- at most once ---------------------------------------------------------

  /** How many slots hold the entry. */
  function Copies(b: Slots, id: Call): nat
  {
    if b == [] then 0 else (if b[0] == Some(id) then 1 else 0) + Copies(b[1..], id)
  }

  lemma {:induction false} NoCopies(b: Slots, id: Call)
    requires Some(id) !in b
    ensures Copies(b, id) == 0
  {
    if b != [] {
      NoCopies(b[1..], id);
    }
  }

  lemma {:induction false} DistinctCopies(b: Slots, id: Call)
    requires Distinct(b)
    ensures Copies(b, id) <= 1
    ensures Copies(b, id) == 1 ==> Some(id) in b
  {
    if b != [] {
      if b[0] == Some(id) {
        NoCopies(b[1..], id);
      } else {
        DistinctCopies(b[1..], id);
      }
    }
  }

  lemma {:induction false} NoRepeatsCount(ids: seq<Call>, id: Call)
    requires NoRepeats(ids)
    ensures multiset(ids)[id] <= 1
  {
    if ids != [] {
      assert ids == [ids[0]] + ids[1..];
      NoRepeatsCount(ids[1..], id);
    }
  }

  /** Whatever the interleaving, the writers, the resizes and the sink's failures,
      no entry is successfully written twice; outside of the instant between a
      successful write and the clearing of its slot, ring and sink together hold
      it at most once; and only accepted entries ever reach the sink. */
  lemma AtMostOnce(c: Config, run: seq<Action>, id: Call)
    requires IsPow2(c.size) && Possible(c, Init(c), run)
    ensures var s := Reached(c, run);
            && multiset(s.delivered)[id] <= 1
            && Copies(s.buffer, id) <= 1
            && (!s.flusher.FClear? ==> Copies(s.buffer, id) + multiset(s.delivered)[id] <= 1)
            && (id in s.delivered ==> IsPublished(s, id))
  {
    ReachedInv(c, run);
    var s := Reached(c, run);
    NoRepeatsCount(s.delivered, id);
    DistinctCopies(s.buffer, id);
    if Copies(s.buffer, id) == 1 && id in s.delivered {
      var j :| 0 <= j < |s.buffer| && s.buffer[j] == Some(id);
      assert s.flusher.FClear?;
    }
  }

  // ---- index safety ---------------------------------------------------------

  /** The index safety of the ring, with the one exception of a resize that is
      between its three stores of buffer, size and mask. */
  lemma IndexSafety(c: Config, run: seq<Action>)
    requires IsPow2(c.size) && Possible(c, Init(c), run)
    ensures var s := Reached(c, run);
            && s.readIndex <= s.writeIndex <= s.readIndex + s.size
            && IsPow2(s.size)
            && s.mask < |s.buffer|
            && (!(s.resize.Held? && (s.resize.pc.SetSize? || s.resize.pc.SetMask?)) ==>
                  s.mask == s.size - 1 && |s.buffer| == s.size)
            && 0 <= s.utilization <= 100
  {
    ReachedInv(c, run);
  }

  /** Every index below the write index was won by exactly one call, every accepted
      call won exactly one index, and a call that still carries its index agrees. */
  lemma ClaimsUnique(c: Config, run: seq<Action>, i: nat)
    requires IsPow2(c.size) && Possible(c, Init(c), run)
    requires i < Reached(c, run).writeIndex
    ensures var s := Reached(c, run);
            && |s.claims| == s.writeIndex
            && s.claims[i] in s.calls && Claimed(s.calls[s.claims[i]])
            && (forall j | 0 <= j < |s.claims| && j != i :: s.claims[j] != s.claims[i])
            && (forall id | id in s.calls && s.calls[id].Store? && s.calls[id].w == i :: id == s.claims[i])
  {
    ReachedInv(c, run);
    var s := Reached(c, run);
    forall id | id in s.calls && s.calls[id].Store? && s.calls[id].w == i ensures id == s.claims[i] {
      assert CallOk(s, id, s.calls[id]);
    }
  }

  /** The shared history a step can only extend. */
  ghost predicate Extends(s: State, s': State)
  {
    Grows(s, s') && s.delivered <= s'.delivered && s.dropCount <= s'.dropCount
  }

  lemma CallExtends(c: Config, s: State, id: Call, giveUp: bool, spawn: Task)
    requires CallEnabled(c, s, id, spawn)
    ensures Extends(s, CallNext(c, s, id, giveUp, spawn))
  {
  }

  lemma FlushExtends(c: Config, s: State, sinkOk: bool, shard: nat)
    requires FlushOk(s) && FlushEnabled(c, s, shard)
    ensures Extends(s, FlushNext(c, s, sinkOk, shard))
  {
  }

  lemma ResizeExtends(c: Config, s: State)
    requires Shape(c, s) && ResizeEnabled(c, s)
    ensures Extends(s, ResizeNext(c, s))
  {
  }

  lemma StepExtends(c: Config, s: State, a: Action)
    requires Shape(c, s) && FlushOk(s) && Enabled(c, s, a)
    ensures Extends(s, Next(c, s, a))
  {
    match a
    case NewCall(id) =>
    case StepCall(id, giveUp, spawn) => CallExtends(c, s, id, giveUp, spawn);
    case StepFlush(sinkOk, shard) => FlushExtends(c, s, sinkOk, shard);
    case StepWaiting(task) =>
    case StepResize => ResizeExtends(c, s);
  }

  /** Sizes never shrink, indices never fall back, and neither a claim nor a
      delivery is ever undone. */
  lemma {:induction false} RunExtends(c: Config, s: State, run: seq<Action>)
    requires Inv(c, s) && Possible(c, s, run)
    ensures Extends(s, After(c, s, run))
    decreases |run|
  {
    if run != [] {
      StepExtends(c, s, run[0]);
      StepKeepsInv(c, s, run[0]);
      RunExtends(c, Next(c, s, run[0]), run[1..]);
    }
  }

  // ---- accounting -----------------------------------------------------------

  predicate Refused(pc: CallPc)
  {
    pc == ReleaseRead(false) || pc == Returned(false)
  }

  function RefusedCalls(s: State): set<Call>
  {
    set id | id in s.calls && Refused(s.calls[id])
  }

  function AcceptedCalls(s: State): set<Call>
  {
    set id | id in s.calls && Claimed(s.calls[id])
  }

  lemma CallCountsRefusals(c: Config, s: State, id: Call, giveUp: bool, spawn: Task)
    requires CallEnabled(c, s, id, spawn) && |RefusedCalls(s)| == s.dropCount
    ensures |RefusedCalls(CallNext(c, s, id, giveUp, spawn))| == CallNext(c, s, id, giveUp, spawn).dropCount
  {
    var s' := CallNext(c, s, id, giveUp, spawn);
    if s.calls[id].Drop? {
      CallDrops(c, s, id, giveUp, spawn);
      assert RefusedCalls(s') == RefusedCalls(s) + {id};
    } else {
      CallKeepsFate(c, s, id, giveUp, spawn);
      assert RefusedCalls(s') == RefusedCalls(s);
    }
  }

  lemma CallDrops(c: Config, s: State, id: Call, giveUp: bool, spawn: Task)
    requires CallEnabled(c, s, id, spawn) && s.calls[id].Drop?
    ensures var s' := CallNext(c, s, id, giveUp, spawn);
            s'.calls == s.calls[id := s'.calls[id]] && Refused(s'.calls[id]) && s'.dropCount == s.dropCount + 1
  {
  }

  lemma CallKeepsFate(c: Config, s: State, id: Call, giveUp: bool, spawn: Task)
    requires CallEnabled(c, s, id, spawn) && !s.calls[id].Drop?
    ensures var s' := CallNext(c, s, id, giveUp, spawn);
            && s'.calls.Keys == s.calls.Keys && s'.dropCount == s.dropCount
            && (forall x | x in s.calls && x != id :: s'.calls[x] == s.calls[x])
            && Refused(s'.calls[id]) == Refused(s.calls[id])
  {
  }

  lemma StepCountsRefusals(c: Config, s: State, a: Action)
    requires Enabled(c, s, a) && |RefusedCalls(s)| == s.dropCount
    ensures |RefusedCalls(Next(c, s, a))| == Next(c, s, a).dropCount
  {
    match a
    case NewCall(id) => assert RefusedCalls(Next(c, s, a)) == RefusedCalls(s);
    case StepCall(id, giveUp, spawn) => CallCountsRefusals(c, s, id, giveUp, spawn);
    case _ => assert Next(c, s, a).calls == s.calls;
  }

  lemma {:induction false} RunCountsRefusals(c: Config, s: State, run: seq<Action>)
    requires Possible(c, s, run) && |RefusedCalls(s)| == s.dropCount
    ensures |RefusedCalls(After(c, s, run))| == After(c, s, run).dropCount
    decreases |run|
  {
    if run != [] {
      StepCountsRefusals(c, s, run[0]);
      RunCountsRefusals(c, Next(c, s, run[0]), run[1..]);
    }
  }

  function Elements(ids: seq<Call>): set<Call>
  {
    set id | id in ids
  }

  lemma {:induction false} DistinctElements(ids: seq<Call>)
    requires NoRepeats(ids)
    ensures |Elements(ids)| == |ids|
  {
    if ids != [] {
      var head, tail := ids[0], ids[1..];
      DistinctElements(tail);
      assert forall j | 0 <= j < |tail| :: tail[j] == ids[j + 1];
      assert head !in tail;
      assert ids == [head] + tail;
      assert Elements(ids) == {head} + Elements(tail);
    }
  }

  lemma ClaimsCountAccepted(s: State)
    requires ClaimsOk(s)
    ensures |AcceptedCalls(s)| == |s.claims|
  {
    DistinctElements(s.claims);
    assert AcceptedCalls(s) == Elements(s.claims);
  }

  lemma AcceptedOrRefused(s: State)
    requires forall id | id in s.calls :: s.calls[id].Returned?
    ensures |s.calls| == |AcceptedCalls(s)| + |RefusedCalls(s)|
  {
    assert s.calls.Keys == AcceptedCalls(s) + RefusedCalls(s);
    assert AcceptedCalls(s) !! RefusedCalls(s);
  }

  /** The write index counts the accepted calls and the drop count the refused
      ones; once no call is under way the two add up to all calls ever made, over
      the fast and the retry path alike. */
  lemma AttemptsAccountedFor(c: Config, run: seq<Action>)
    requires IsPow2(c.size) && Possible(c, Init(c), run)
    ensures var s := Reached(c, run);
            && |AcceptedCalls(s)| == s.writeIndex
            && |RefusedCalls(s)| == s.dropCount
            && ((forall id | id in s.calls :: s.calls[id].Returned?) ==> |s.calls| == s.writeIndex + s.dropCount)
  {
    ReachedInv(c, run);
    var s := Reached(c, run);
    assert RefusedCalls(Init(c)) == {};
    RunCountsRefusals(c, Init(c), run);
    ClaimsCountAccepted(s);
    if forall id | id in s.calls :: s.calls[id].Returned? {
      AcceptedOrRefused(s);
    }
  }
}
