/** When the ring grows and how much a flush takes, over every run of its steps. */
module AsyncBounds {
  import opened Bits
  import opened AsyncProtocol
  import opened AsyncSafety
  import opened AsyncProof
  import opened AsyncTheorems
  import opened AsyncPlacement

  // ---- the batch ------------------------------------------------------------

  /** A batch under way holds at most 100 indices. */
  predicate BatchShort(s: State)
  {
    match s.flusher
    case FLockShards(r, end, _) => end - r <= 100
    case FTake(r, end, _) => end - r <= 100
    case FPut(r, end, _, _) => end - r <= 100
    case FClear(r, end, _, _) => end - r <= 100
    case FUnlockShards(end) => end - s.readIndex <= 100
    case FStoreRead(end) => end - s.readIndex <= 100
    case _ => true
  }

  lemma StepKeepsBatchShort(c: Config, s: State, a: Action)
    requires FlushOk(s) && BatchShort(s) && Enabled(c, s, a)
    ensures BatchShort(Next(c, s, a))
    ensures s.readIndex <= Next(c, s, a).readIndex <= s.readIndex + 100
  {
  }

  lemma {:induction false} RunKeepsBatchShort(c: Config, s: State, run: seq<Action>)
    requires Inv(c, s) && BatchShort(s) && Possible(c, s, run)
    ensures BatchShort(After(c, s, run))
    decreases |run|
  {
    if run != [] {
      StepKeepsInv(c, s, run[0]);
      StepKeepsBatchShort(c, s, run[0]);
      RunKeepsBatchShort(c, Next(c, s, run[0]), run[1..]);
    }
  }

  /** In every reachable state: no step moves the read index by more than 100, and a flush
      that has just loaded the write index settles on all that is pending, or the first
      100 of it. */
  lemma FlushTakesAtMost100(c: Config, run: seq<Action>, a: Action)
    requires IsPow2(c.size) && Possible(c, Init(c), run) && Enabled(c, Reached(c, run), a)
    ensures var s := Reached(c, run); var t := Next(c, s, a); var pending := s.writeIndex - s.readIndex;
            && s.readIndex <= t.readIndex <= s.readIndex + 100
            && (s.flusher.FLoadWrite? && t.flusher.FLockShards? ==>
                  t.flusher.end == s.readIndex + if pending < 100 then pending else 100)
            && (s.flusher.FLoadWrite? && a.StepFlush? ==> (t.flusher.FLockShards? <==> pending > 0))
  {
    InitInv(c);
    RunKeepsBatchShort(c, Init(c), run);
    ReachedInv(c, run);
    StepKeepsBatchShort(c, Reached(c, run), a);
  }

  // ---- the size -------------------------------------------------------------

  /** The sizes a growth about to install one may have. */
  predicate SizeShort(c: Config, s: State)
  {
    && (s.size <= c.size || s.size <= 1048576)
    && (s.resize.Held? ==>
          match s.resize.pc
          case Draining => true
          case Recheck => true
          case RRelease => true
          case SetMask(n) => n == s.size
          case SetSize(n) => n <= 1048576
          case _ => 2 * s.size <= 1048576)
  }

  lemma StepKeepsSizeShort(c: Config, s: State, a: Action)
    requires SizeShort(c, s) && Enabled(c, s, a)
    ensures SizeShort(c, Next(c, s, a))
  {
  }

  lemma {:induction false} RunKeepsSizeShort(c: Config, s: State, run: seq<Action>)
    requires SizeShort(c, s) && Possible(c, s, run)
    ensures SizeShort(c, After(c, s, run))
    decreases |run|
  {
    if run != [] {
      StepKeepsSizeShort(c, s, run[0]);
      RunKeepsSizeShort(c, Next(c, s, run[0]), run[1..]);
    }
  }

  /** No growth goes past 2^20 slots. */
  lemma SizeBound(c: Config, run: seq<Action>)
    requires Possible(c, Init(c), run)
    ensures c.size <= 1048576 ==> Reached(c, run).size <= 1048576
    ensures c.size > 1048576 ==> Reached(c, run).size <= c.size
  {
    RunKeepsSizeShort(c, Init(c), run);
  }

  /** What a call will store as the utilization, or has compared to the threshold. */
  ghost predicate NeverOver(c: Config, s: State)
  {
    FixedSize(s) && Inv(c, s)
  }

  lemma CallSpawnsNothing(c: Config, s: State, id: Call, giveUp: bool, spawn: Task)
    requires c.threshold >= 100 && NeverOver(c, s) && CallEnabled(c, s, id, spawn)
    ensures FixedSize(CallNext(c, s, id, giveUp, spawn))
  {
    assert CallOk(s, id, s.calls[id]);
    if s.calls[id].MaybeSpawn? {
      PercentBound(s.calls[id].w, s.calls[id].r, s.size);
    }
  }

  lemma StepSpawnsNothing(c: Config, s: State, a: Action)
    requires c.threshold >= 100 && NeverOver(c, s) && Enabled(c, s, a)
    ensures FixedSize(Next(c, s, a)) && Next(c, s, a).size == s.size
  {
    if a.StepCall? {
      CallSpawnsNothing(c, s, a.id, a.giveUp, a.spawn);
    }
  }

  lemma {:induction false} RunSpawnsNothing(c: Config, s: State, run: seq<Action>)
    requires c.threshold >= 100 && NeverOver(c, s) && Possible(c, s, run)
    ensures FixedSize(After(c, s, run)) && After(c, s, run).size == s.size
    decreases |run|
  {
    if run != [] {
      StepSpawnsNothing(c, s, run[0]);
      StepKeepsInv(c, s, run[0]);
      RunSpawnsNothing(c, Next(c, s, run[0]), run[1..]);
    }
  }

  /** A threshold of 100 or more, which no utilization is over, keeps the ring from ever
      growing, as switching dynamic resizing off does. */
  lemma ThresholdStopsGrowth(c: Config, run: seq<Action>)
    requires IsPow2(c.size) && c.threshold >= 100 && Possible(c, Init(c), run)
    ensures FixedSize(Reached(c, run)) && Reached(c, run).size == c.size
  {
    InitInv(c);
    RunSpawnsNothing(c, Init(c), run);
  }

  // ---- what a call stores ------------------------------------------------------

  /** With nobody else about, a call on a ring of which it leaves `used` slots in use
      stores that in whole percent, and starts a growth exactly if that is over the
      threshold and dynamic resizing is on. */
  lemma LoneCallStores(c: Config, s: State, id: Call, spawn: Task)
    requires s.readIndex < s.writeIndex && spawn !in s.waiting && s.resize.Free?
    requires id in s.calls && s.calls[id] == SetUtilization(false, s.writeIndex - 1, s.readIndex)
    ensures var used := s.writeIndex - s.readIndex;
            var t := CallNext(c, s, id, false, spawn);
            && t.utilization == used * 100 / s.size
            && CallEnabled(c, t, id, spawn)
            && var u := CallNext(c, t, id, false, spawn);
               u.waiting == if c.dynamicResize && used * 100 / s.size > c.threshold
                            then s.waiting[spawn := FirstCheck] else s.waiting
  {
  }

  /** A growth that has waited for its lock goes on exactly if the utilization is still
      over the threshold and twice the size is at most 2^20. */
  lemma GrowthGoesOn(c: Config, s: State, task: Task)
    requires s.resize == Held(task, Recheck)
    ensures ResizeNext(c, s).resize
            == Held(task, if s.utilization > c.threshold && 2 * s.size <= 1048576 then RLoadRead else RRelease)
    ensures ResizeNext(c, s) == s.(resize := ResizeNext(c, s).resize)
  {
  }

  /** One that starts waits for the lock exactly if the utilization is over it. */
  lemma GrowthStarts(c: Config, s: State, task: Task)
    requires task in s.waiting && s.waiting[task] == FirstCheck
    ensures var t := WaitingNext(c, s, task);
            && (task in t.waiting <==> s.utilization > c.threshold)
            && (task in t.waiting ==> t.waiting[task] == AwaitLock)
  {
  }
}
