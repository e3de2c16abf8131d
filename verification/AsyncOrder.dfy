/** Deliveries stay in claim order as long as every take finds the entry that claimed
    its index, and never return to it once a take has not. */
module AsyncOrder {
  import opened Wrappers
  import opened AsyncProtocol
  import opened AsyncSafety
  import opened AsyncProof

  /** The first index whose slot the flush has not dealt with. */
  function Frontier(s: State): nat
  {
    match s.flusher
    case FTake(_, _, i) => i
    case FPut(_, _, i, _) => i
    case FClear(_, _, i, _) => i + 1
    case FUnlockShards(end) => end
    case FStoreRead(end) => end
    case _ => s.readIndex
  }

  predicate SinkAccepts(a: Action)
  {
    a.StepFlush? ==> a.sinkOk
  }

  predicate Takes(s: State, a: Action)
  {
    a.StepFlush? && s.flusher.FTake? && s.flusher.i < s.flusher.end
  }

  ghost predicate InClaimOrder(s: State)
  {
    Frontier(s) <= |s.claims| && s.delivered == s.claims[..Frontier(s)]
  }

  ghost predicate HandRight(s: State)
  {
    s.flusher.FPut? ==> s.flusher.i < |s.claims| && s.flusher.entry == s.claims[s.flusher.i]
  }

  /** Whether a flush step that takes an index finds the entry that claimed it. */
  predicate Finds(s: State, a: Action)
  {
    Takes(s, a) ==>
      && s.flusher.i < |s.claims| && Slot(s.flusher.i, s.mask) < |s.buffer|
      && s.buffer[Slot(s.flusher.i, s.mask)] == Some(s.claims[s.flusher.i])
  }

  ghost predicate InOrder(s: State)
  {
    InClaimOrder(s) && HandRight(s)
  }

  lemma PrefixGrows(ids: seq<Call>, i: nat)
    requires i < |ids|
    ensures ids[..i] + [ids[i]] == ids[..i + 1]
  {
  }

  lemma CallKeepsOrder(c: Config, s: State, id: Call, giveUp: bool, spawn: Task)
    requires InOrder(s) && CallEnabled(c, s, id, spawn)
    ensures InOrder(CallNext(c, s, id, giveUp, spawn))
  {
    var s' := CallNext(c, s, id, giveUp, spawn);
    assert s.claims <= s'.claims && s'.delivered == s.delivered;
    assert s'.flusher == s.flusher && s'.readIndex == s.readIndex;
    assert s'.claims[..Frontier(s)] == s.claims[..Frontier(s)];
  }

  lemma FlushKeepsOrder(c: Config, s: State, shard: nat)
    requires FlushOk(s) && InOrder(s) && FlushEnabled(c, s, shard) && Finds(s, StepFlush(true, shard))
    ensures InOrder(FlushNext(c, s, true, shard))
  {
    if s.flusher.FPut? {
      PrefixGrows(s.claims, s.flusher.i);
    }
  }

  lemma StepKeepsOrder(c: Config, s: State, a: Action)
    requires FlushOk(s) && InOrder(s) && Enabled(c, s, a) && SinkAccepts(a) && Finds(s, a)
    ensures InOrder(Next(c, s, a))
  {
    match a
    case NewCall(id) =>
    case StepCall(id, giveUp, spawn) => CallKeepsOrder(c, s, id, giveUp, spawn);
    case StepFlush(_, shard) => FlushKeepsOrder(c, s, shard);
    case StepWaiting(task) => assert Next(c, s, a).claims == s.claims;
    case StepResize => ResizeIsQuiet(c, s);
  }

  lemma ResizeIsQuiet(c: Config, s: State)
    requires ResizeEnabled(c, s)
    ensures var s' := ResizeNext(c, s);
            && s'.claims == s.claims && s'.readIndex == s.readIndex && s'.writeIndex == s.writeIndex
            && s'.delivered == s.delivered && s'.flusher == s.flusher && s'.calls == s.calls
  {
  }

  /** A delivery is missing, or the wrong one is in hand or made, for good. */
  ghost predicate OutOfOrder(s: State)
  {
    || |s.delivered| < Frontier(s)
    || (s.flusher.FPut? && s.flusher.i == |s.delivered| < |s.claims| && s.flusher.entry != s.claims[s.flusher.i])
    || exists i :: 0 <= i < |s.delivered| && i < |s.claims| && s.delivered[i] != s.claims[i]
  }

  lemma CallStaysOutOfOrder(c: Config, s: State, id: Call, giveUp: bool, spawn: Task)
    requires OutOfOrder(s) && CallEnabled(c, s, id, spawn)
    ensures OutOfOrder(CallNext(c, s, id, giveUp, spawn))
  {
    var s' := CallNext(c, s, id, giveUp, spawn);
    assert s.claims <= s'.claims && s'.delivered == s.delivered;
    assert s'.flusher == s.flusher && s'.readIndex == s.readIndex;
  }

  lemma FlushStaysOutOfOrder(c: Config, s: State, shard: nat)
    requires FlushOk(s) && OutOfOrder(s) && FlushEnabled(c, s, shard)
    ensures OutOfOrder(FlushNext(c, s, true, shard))
  {
    var s' := FlushNext(c, s, true, shard);
    assert s.delivered <= s'.delivered && s'.claims == s.claims;
    if s.flusher.FPut? && s.flusher.i == |s.delivered| < |s.claims| && s.flusher.entry != s.claims[s.flusher.i] {
      assert s'.delivered[s.flusher.i] != s'.claims[s.flusher.i];
    }
    if i :| 0 <= i < |s.delivered| && i < |s.claims| && s.delivered[i] != s.claims[i] {
      assert s'.delivered[i] != s'.claims[i];
    }
  }

  lemma StepStaysOutOfOrder(c: Config, s: State, a: Action)
    requires FlushOk(s) && OutOfOrder(s) && Enabled(c, s, a) && SinkAccepts(a)
    ensures OutOfOrder(Next(c, s, a))
  {
    match a
    case NewCall(id) =>
    case StepCall(id, giveUp, spawn) => CallStaysOutOfOrder(c, s, id, giveUp, spawn);
    case StepFlush(_, shard) => FlushStaysOutOfOrder(c, s, shard);
    case StepWaiting(task) => assert Next(c, s, a).claims == s.claims;
    case StepResize => ResizeIsQuiet(c, s);
  }

  lemma {:induction false} RunStaysOutOfOrder(c: Config, s: State, run: seq<Action>)
    requires Inv(c, s) && OutOfOrder(s) && Possible(c, s, run)
    requires forall a | a in run :: SinkAccepts(a)
    ensures OutOfOrder(After(c, s, run))
    decreases |run|
  {
    if run != [] {
      StepStaysOutOfOrder(c, s, run[0]);
      StepKeepsInv(c, s, run[0]);
      RunStaysOutOfOrder(c, Next(c, s, run[0]), run[1..]);
    }
  }

  lemma MissedTake(c: Config, s: State, a: Action)
    requires FlushOk(s) && Indices(s) && InOrder(s) && Enabled(c, s, a) && !Finds(s, a)
    ensures OutOfOrder(Next(c, s, a))
  {
  }
}
