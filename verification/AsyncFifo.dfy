/** Exactly when the interleaved ring, growing or not, is a lossless FIFO queue under a
    sink that does not fail. */
module AsyncFifo {
  import opened Bits
  import opened Wrappers
  import opened AsyncProtocol
  import opened AsyncSafety
  import opened AsyncProof
  import opened AsyncTheorems
  import opened AsyncOrder
  import opened AsyncPlacement

  // ---- a store that misses a growth ------------------------------------------

  /** The first index no flush has taken yet. */
  function Untaken(s: State): nat
  {
    if s.flusher.FPut? then s.flusher.i + 1 else Frontier(s)
  }

  predicate Holds(b: Slots, mask: nat, v: nat, entry: Call)
  {
    Slot(v, mask) < |b| && b[Slot(v, mask)] == Some(entry)
  }

  /** The entry of index v is, or will be, in no place a take of v looks at: not in its
      slot of the present buffer, or the growth under way will not copy it. */
  ghost predicate Astray(s: State, v: nat, entry: Call)
  {
    match s.resize
    case Held(_, RLockShards(_, w, _)) => v >= w || !Holds(s.buffer, s.mask, v, entry)
    case Held(_, Copy(_, w, _, grown)) =>
      (v >= w || !Holds(s.buffer, s.mask, v, entry)) && !Holds(grown, 2 * s.size - 1, v, entry)
    case Held(_, RUnlockShards(grown, _)) => !Holds(grown, 2 * s.size - 1, v, entry)
    case Held(_, SetBuffer(grown)) => !Holds(grown, 2 * s.size - 1, v, entry)
    case _ => !Holds(s.buffer, BufferMask(s), v, entry)
  }

  /** Index v is stored, not taken yet, and its entry will not be found. */
  ghost predicate Lost(s: State, v: nat)
  {
    && Untaken(s) <= v < |s.claims| && IsPublished(s, s.claims[v])
    && Astray(s, v, s.claims[v])
  }

  lemma NoStoreWhileCopying(c: Config, s: State, id: Call)
    requires ShardsOk(c, s) && id in s.calls && s.calls[id].Store?
    ensures !(s.resize.Held? && s.resize.pc.Copy?)
  {
    var k := s.calls[id].w % c.shards;
    assert CallHolds(c, s.calls[id], k);
    assert s.shards[k] == Some(ByCall(id));
    assert s.shards[k] != Some(ByResizer) && !ResizeHolds(s, k);
  }

  /** Before its store no index of the window is in its slot of the buffer, nor in that
      of a finished copy. */
  lemma UnstoredIsAstray(c: Config, s: State, v: nat)
    requires Shape(c, s) && Indices(s) && Placed(s, true) && Frontier(s) <= v < s.writeIndex && s.readIndex <= v
    requires !IsPublished(s, s.claims[v]) && MissesGrowth(s, v) && !(s.resize.Held? && s.resize.pc.Copy?)
    ensures s.resize.Held?
    ensures !s.resize.pc.RLockShards? ==> Astray(s, v, s.claims[v])
  {
    match s.resize.pc
    case RUnlockShards(grown, _) => assert RightIn(s, grown, 2 * s.size - 1, v, true);
    case SetBuffer(grown) => assert RightIn(s, grown, 2 * s.size - 1, v, true);
    case SetSize(_) => assert RightIn(s, s.buffer, BufferMask(s), v, true);
    case SetMask(_) => assert RightIn(s, s.buffer, BufferMask(s), v, true);
    case _ =>
  }

  lemma MissingGrowthIsAlone(s: State, v: nat)
    requires ReadersOk(s) && MissesGrowth(s, v)
    ensures !FlushReads(s.flusher) && Untaken(s) == Frontier(s) == s.readIndex
  {
  }

  /** The store itself changes nothing about that: it goes elsewhere. */
  lemma StoreStaysAstray(s: State, s': State, v: nat, id: Call)
    requires s.resize.Held? && !s.resize.pc.Copy? && MissesGrowth(s, v)
    requires s.resize.pc.RLockShards? || Astray(s, v, id)
    requires s'.resize == s.resize && s'.mask == s.mask && s'.size == s.size && Slot(v, s.mask) < |s.buffer|
    requires s'.buffer == s.buffer[Slot(v, s.mask) := Some(id)]
    ensures Astray(s', v, id)
  {
  }

  lemma CarelessStoreLoses(c: Config, s: State, id: Call, giveUp: bool, spawn: Task)
    requires Base(c, s) && ShardsOk(c, s) && InClaimOrder(s) && Placed(s, true)
    requires CallEnabled(c, s, id, spawn) && s.calls[id].Store? && MissesGrowth(s, s.calls[id].w)
    ensures Lost(CallNext(c, s, id, giveUp, spawn), s.calls[id].w)
  {
    var s' := CallNext(c, s, id, giveUp, spawn);
    var v := s.calls[id].w;
    StoreEffect(c, s, id, giveUp, spawn);
    OrderPassesStored(s);
    NotPassedYet(s, id, v);
    NoStoreWhileCopying(c, s, id);
    MissingGrowthIsAlone(s, v);
    UnstoredIsAstray(c, s, v);
    StoreStaysAstray(s, s', v, id);
  }

  lemma CallKeepsLost(c: Config, s: State, id: Call, giveUp: bool, spawn: Task, v: nat)
    requires Lost(s, v) && CallEnabled(c, s, id, spawn)
    ensures Lost(CallNext(c, s, id, giveUp, spawn), v)
  {
    var s' := CallNext(c, s, id, giveUp, spawn);
    if s.calls[id].Store? {
      StoreEffect(c, s, id, giveUp, spawn);
    } else if s.calls[id].Claim? && s.calls[id].w == s.writeIndex {
      ClaimEffect(c, s, id, giveUp, spawn);
    } else {
      OtherCallStepsAreQuiet(c, s, id, giveUp, spawn);
    }
  }

  /** A lost index is not taken, unless in vain. */
  lemma FlushKeepsLost(c: Config, s: State, shard: nat, v: nat)
    requires ReadersOk(s) && FlushOk(s) && Lost(s, v) && FlushEnabled(c, s, shard)
    requires Finds(s, StepFlush(true, shard))
    ensures Lost(FlushNext(c, s, true, shard), v)
  {
    if FlushReads(s.flusher) {
      FlushExcludesGrowth(s);
    }
  }

  lemma CopyKeepsLost(c: Config, s: State, v: nat)
    requires Shape(c, s) && GrownShape(s) && Indices(s) && ResizeOk(c, s) && ReadersOk(s)
    requires Lost(s, v) && ResizeEnabled(c, s) && s.resize.pc.Copy? && s.resize.pc.i < s.resize.pc.w
    ensures Lost(ResizeNext(c, s), v)
  {
    CopyEffect(c, s);
    ResizeIsQuiet(c, s);
    assert s.readIndex <= v by {
      assert !FlushReads(s.flusher);
    }
    if s.resize.pc.i != v {
      CopiedElsewhere(s, s.resize.pc.i, v);
    }
  }

  lemma CopiedElsewhere(s: State, i: nat, v: nat)
    requires IsPow2(s.size) && s.readIndex <= i < s.writeIndex <= s.readIndex + s.size
    requires s.readIndex <= v < s.writeIndex && i != v
    ensures Slot(i, 2 * s.size - 1) != Slot(v, 2 * s.size - 1)
  {
    Doubled(s.size);
    if i < v {
      SlotInjective(i, v, 2 * s.size);
    } else {
      SlotInjective(v, i, 2 * s.size);
    }
  }

  lemma StartCopyLoses(c: Config, s: State, v: nat)
    requires Lost(s, v) && ResizeEnabled(c, s) && (s.resize.pc.RLoadWrite? || s.resize.pc.RLockShards?)
    ensures Lost(ResizeNext(c, s), v)
  {
  }

  lemma ResizeKeepsLost(c: Config, s: State, v: nat)
    requires Shape(c, s) && GrownShape(s) && Indices(s) && ResizeOk(c, s) && ReadersOk(s)
    requires Lost(s, v) && ResizeEnabled(c, s)
    ensures Lost(ResizeNext(c, s), v)
  {
    match s.resize.pc
    case Copy(_, w, i, _) =>
      if i < w {
        CopyKeepsLost(c, s, v);
      }
    case RLoadWrite(_) => StartCopyLoses(c, s, v);
    case RLockShards(_, _, _) => StartCopyLoses(c, s, v);
    case SetBuffer(_) => assert BufferMask(ResizeNext(c, s)) == 2 * s.size - 1;
    case _ => ResizeIsQuiet(c, s);
  }

  lemma QuietKeepsLost(s: State, s': State, v: nat)
    requires Lost(s, v) && s'.buffer == s.buffer && s'.mask == s.mask && s'.size == s.size && s'.claims == s.claims
    requires s'.flusher == s.flusher && s'.readIndex == s.readIndex
    requires s'.resize == s.resize || (s.resize.Free? && s'.resize.Held? && s'.resize.pc == Draining)
    requires forall x :: IsPublished(s', x) <==> IsPublished(s, x)
    ensures Lost(s', v)
  {
  }

  lemma WaitingIsQuiet(c: Config, s: State, task: Task)
    requires WaitingEnabled(s, task)
    ensures var s' := WaitingNext(c, s, task);
            && s'.buffer == s.buffer && s'.mask == s.mask && s'.size == s.size && s'.claims == s.claims
            && s'.flusher == s.flusher && s'.readIndex == s.readIndex && s'.calls == s.calls
            && (s'.resize == s.resize || (s.resize.Free? && s'.resize.Held? && s'.resize.pc == Draining))
  {
  }

  lemma StepKeepsLost(c: Config, s: State, a: Action, v: nat)
    requires Shape(c, s) && GrownShape(s) && Indices(s) && FlushOk(s) && ResizeOk(c, s) && ReadersOk(s)
    requires Lost(s, v) && Enabled(c, s, a) && SinkAccepts(a) && Finds(s, a)
    ensures Lost(Next(c, s, a), v)
  {
    match a
    case NewCall(id) => QuietKeepsLost(s, Next(c, s, a), v);
    case StepCall(id, giveUp, spawn) => CallKeepsLost(c, s, id, giveUp, spawn, v);
    case StepFlush(_, shard) => FlushKeepsLost(c, s, shard, v);
    case StepWaiting(task) =>
      WaitingIsQuiet(c, s, task);
      QuietKeepsLost(s, Next(c, s, a), v);
    case StepResize => ResizeKeepsLost(c, s, v);
  }

  /** A lost entry keeps the deliveries from ever being complete. */
  lemma {:induction false} RunStaysLost(c: Config, s: State, run: seq<Action>, v: nat)
    requires Inv(c, s) && InOrder(s) && Lost(s, v) && Possible(c, s, run)
    requires forall a | a in run :: SinkAccepts(a)
    ensures OutOfOrder(After(c, s, run)) || Lost(After(c, s, run), v)
    decreases |run|
  {
    if run != [] {
      var a, s' := run[0], Next(c, s, run[0]);
      InvBase(c, s);
      StepKeepsInv(c, s, a);
      if Finds(s, a) {
        StepKeepsOrder(c, s, a);
        StepKeepsLost(c, s, a, v);
        RunStaysLost(c, s', run[1..], v);
      } else {
        MissedTake(c, s, a);
        RunStaysOutOfOrder(c, s', run[1..]);
      }
    }
  }

  // ---- exactly ---------------------------------------------------------------

  ghost predicate Failed(s: State)
  {
    OutOfOrder(s) || exists v: nat :: Lost(s, v)
  }

  lemma CarelessRunFails(c: Config, s: State, run: seq<Action>)
    requires Inv(c, s) && Fifo(s) && Possible(c, s, run) && run != [] && !Careful(s, run[0])
    requires forall a | a in run :: SinkAccepts(a)
    ensures Failed(After(c, s, run))
  {
    var a, s' := run[0], Next(c, s, run[0]);
    var v := s.calls[a.id].w;
    InvBase(c, s);
    StepKeepsInv(c, s, a);
    CarelessStoreLoses(c, s, a.id, a.giveUp, a.spawn);
    CallKeepsOrder(c, s, a.id, a.giveUp, a.spawn);
    RunStaysLost(c, s', run[1..], v);
  }

  lemma {:induction false} FifoFrom(c: Config, s: State, run: seq<Action>)
    requires Inv(c, s) && Fifo(s) && Possible(c, s, run)
    requires forall a | a in run :: SinkAccepts(a)
    ensures AllTimely(c, s, run) && AllCareful(c, s, run) ==> Fifo(After(c, s, run))
    ensures !AllTimely(c, s, run) || !AllCareful(c, s, run) ==> Failed(After(c, s, run))
    decreases |run|
  {
    if run != [] {
      var a, s' := run[0], Next(c, s, run[0]);
      InvBase(c, s);
      StepKeepsInv(c, s, a);
      TimelyFinds(c, s, a, true);
      if !Timely(s, a) {
        MissedTake(c, s, a);
        RunStaysOutOfOrder(c, s', run[1..]);
      } else if !Careful(s, a) {
        CarelessRunFails(c, s, run);
      } else {
        StepKeepsOrder(c, s, a);
        OrderPassesStored(s);
        StepKeepsPlaced(c, s, a, true);
        FifoFrom(c, s', run[1..]);
      }
    }
  }

  /** Once every claimed index was taken, with a sink that does not fail: the deliveries
      are the claimed entries, all of them and in claim order, if and only if every
      store came before the flush that took its index and no store missed a growth.
      Under the two conditions no run, however far, is ever out of order, and every
      stored entry not delivered yet is in the slot of its own index. */
  lemma FifoExactly(c: Config, run: seq<Action>)
    requires IsPow2(c.size) && Possible(c, Init(c), run)
    requires forall a | a in run :: SinkAccepts(a)
    ensures var s := Reached(c, run);
            Frontier(s) == s.writeIndex ==>
              (s.delivered == s.claims <==> AllTimely(c, Init(c), run) && AllCareful(c, Init(c), run))
    ensures AllTimely(c, Init(c), run) && AllCareful(c, Init(c), run) ==> Fifo(Reached(c, run))
  {
    var s := Reached(c, run);
    InitInv(c);
    InitFifo(c);
    FifoFrom(c, Init(c), run);
    ReachedInv(c, run);
    if Frontier(s) == s.writeIndex {
      assert s.claims[..|s.claims|] == s.claims;
      if Failed(s) {
        FailedIsIncomplete(s);
      }
    }
  }

  lemma FailedIsIncomplete(s: State)
    requires Indices(s) && FlushOk(s) && Failed(s) && Frontier(s) == s.writeIndex
    ensures s.delivered != s.claims
  {
    forall v: nat ensures !Lost(s, v) {
      assert Untaken(s) == s.writeIndex;
    }
  }

  // ---- without growth --------------------------------------------------------

  /** With dynamic resizing off nothing can miss a growth. */
  lemma FixedSizeFifo(c: Config, run: seq<Action>)
    requires IsPow2(c.size) && !c.dynamicResize && Possible(c, Init(c), run)
    requires forall a | a in run :: SinkAccepts(a)
    ensures var s := Reached(c, run);
            Frontier(s) == s.writeIndex ==> (s.delivered == s.claims <==> AllTimely(c, Init(c), run))
  {
    FixedSizeIsCareful(c, Init(c), run);
    FifoExactly(c, run);
  }
}
