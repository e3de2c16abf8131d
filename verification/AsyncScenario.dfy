/** Building possible runs out of stretches: a whole claim, a store, a flush. For any
    configuration with one shard lock. */
module AsyncScenario {
  import opened Wrappers
  import opened AsyncProtocol
  import opened AsyncSafety
  import opened AsyncOrder
  import opened AsyncPlacement

  /** What every step of a run must respect: takes come after stores, the sink does not
      fail, refusals come after the stores to their batch. */
  datatype Law = Law(timely: bool, sinkOk: bool, dropsStored: bool)

  /** Only the sink keeps to anything: it does not fail. */
  const SOUND := Law(false, true, false)

  ghost predicate Lawful(c: Config, s: State, run: seq<Action>, law: Law)
    requires Possible(c, s, run)
  {
    && (law.timely ==> AllTimely(c, s, run))
    && (law.sinkOk ==> forall a | a in run :: SinkAccepts(a))
    && (law.dropsStored ==> AllDropsStored(c, s, run))
  }

  /** The run takes s to t. */
  ghost predicate Drives(c: Config, s: State, run: seq<Action>, t: State, law: Law)
  {
    Possible(c, s, run) && After(c, s, run) == t && Lawful(c, s, run, law)
  }

  ghost predicate Leads(c: Config, s: State, t: State, law: Law)
  {
    exists run :: Drives(c, s, run, t, law)
  }

  lemma Stay(c: Config, s: State, law: Law)
    ensures Leads(c, s, s, law)
  {
    assert Drives(c, s, [], s, law);
  }

  ghost predicate Allowed(c: Config, s: State, a: Action, law: Law)
  {
    && Enabled(c, s, a) && (law.timely ==> Timely(s, a)) && (law.sinkOk ==> SinkAccepts(a))
    && (law.dropsStored ==> DropsStored(s, a))
  }

  lemma {:induction false} OneMore(c: Config, s: State, run: seq<Action>, a: Action, law: Law)
    requires Possible(c, s, run) && Lawful(c, s, run, law) && Allowed(c, After(c, s, run), a, law)
    ensures Drives(c, s, run + [a], Next(c, After(c, s, run), a), law)
    decreases |run|
  {
    if run == [] {
      assert run + [a] == [a] && [a][1..] == [];
    } else {
      assert (run + [a])[0] == run[0] && (run + [a])[1..] == run[1..] + [a];
      OneMore(c, Next(c, s, run[0]), run[1..], a, law);
    }
  }

  lemma Step(c: Config, s: State, t: State, a: Action, law: Law) returns (u: State)
    requires Leads(c, s, t, law) && Allowed(c, t, a, law)
    ensures Leads(c, s, u, law) && u == Next(c, t, a)
  {
    var run :| Drives(c, s, run, t, law);
    OneMore(c, s, run, a, law);
    u := Next(c, t, a);
  }

  // ---- write -----------------------------------------------------------------

  /** A new call up to the point where it claims. */
  lemma StartCall(c: Config, s: State, t: State, id: Call, law: Law) returns (u: State)
    requires Leads(c, s, t, law) && id !in t.calls && Usage(t.writeIndex, t.readIndex) <= t.size
    ensures Leads(c, s, u, law) && u == t.(calls := t.calls[id := Claim(false, t.writeIndex, t.readIndex)])
  {
    var step := StepCall(id, false, 0);
    u := Step(c, s, t, NewCall(id), law);
    u := Step(c, s, u, step, law);
    u := Step(c, s, u, step, law);
    u := Step(c, s, u, step, law);
  }

  lemma ClaimIndex(c: Config, s: State, t: State, id: Call, law: Law) returns (u: State)
    requires Leads(c, s, t, law) && id !in t.calls && Usage(t.writeIndex, t.readIndex) <= t.size
    ensures Leads(c, s, u, law)
    ensures u == t.(writeIndex := t.writeIndex + 1, claims := t.claims + [id],
                    calls := t.calls[id := LockShard(false, t.writeIndex, t.readIndex)])
  {
    u := StartCall(c, s, t, id, law);
    u := Step(c, s, u, StepCall(id, false, 0), law);
  }

  lemma StoreSlot(c: Config, s: State, t: State, id: Call, w: nat, r: nat, law: Law) returns (u: State)
    requires Leads(c, s, t, law) && id in t.calls && t.calls[id] == LockShard(false, w, r)
    requires c.shards == 1 && t.shards == [None] && Slot(w, t.mask) < |t.buffer|
    ensures Leads(c, s, u, law)
    ensures u == t.(buffer := t.buffer[Slot(w, t.mask) := Some(id)],
                    calls := t.calls[id := SetUtilization(false, w, r)])
  {
    var step := StepCall(id, false, 0);
    u := Step(c, s, t, step, law);
    u := Step(c, s, u, step, law);
    u := Step(c, s, u, step, law);
    assert u.shards == [None];
  }

  /** The rest of a call, which may start a growth. */
  lemma FinishCall(c: Config, s: State, t: State, id: Call, w: nat, r: nat, task: Task, law: Law) returns (u: State)
    requires Leads(c, s, t, law) && id in t.calls && t.calls[id] == SetUtilization(false, w, r)
    requires SpawnsResize(c, t, w, r) ==> task !in t.waiting && !(t.resize.Held? && t.resize.task == task)
    ensures Leads(c, s, u, law)
    ensures u == t.(utilization := Percent(w, r, t.size), calls := t.calls[id := Returned(true)],
                    waiting := if SpawnsResize(c, t, w, r) then t.waiting[task := FirstCheck] else t.waiting)
  {
    u := Step(c, s, t, StepCall(id, false, task), law);
    u := Step(c, s, u, StepCall(id, false, task), law);
  }

  /** A whole call on a ring with room. */
  lemma WholeCall(c: Config, s: State, t: State, id: Call, task: Task, law: Law) returns (u: State)
    requires Leads(c, s, t, law) && id !in t.calls && Usage(t.writeIndex, t.readIndex) <= t.size
    requires c.shards == 1 && t.shards == [None] && Slot(t.writeIndex, t.mask) < |t.buffer|
    requires task !in t.waiting && t.resize.Free?
    ensures Leads(c, s, u, law)
    ensures var w, r := t.writeIndex, t.readIndex;
            u == t.(writeIndex := w + 1, claims := t.claims + [id], buffer := t.buffer[Slot(w, t.mask) := Some(id)],
                    utilization := Percent(w, r, t.size), calls := t.calls[id := Returned(true)],
                    waiting := if SpawnsResize(c, t, w, r) then t.waiting[task := FirstCheck] else t.waiting)
  {
    var w, r := t.writeIndex, t.readIndex;
    u := ClaimIndex(c, s, t, id, law);
    u := StoreSlot(c, s, u, id, w, r, law);
    u := FinishCall(c, s, u, id, w, r, task, law);
  }

  // ---- flush -----------------------------------------------------------------

  lemma EnterFlush(c: Config, s: State, t: State, law: Law) returns (u: State)
    requires Leads(c, s, t, law) && t.flusher.Idle? && t.resize.Free?
    ensures Leads(c, s, u, law) && u == t.(readers := t.readers + {FlushReader}, flusher := FLoadRead)
  {
    u := Step(c, s, t, StepFlush(true, 0), law);
    u := Step(c, s, u, StepFlush(true, 0), law);
  }

  /** Everything pending is one batch. */
  lemma LoadBatch(c: Config, s: State, t: State, law: Law) returns (u: State)
    requires Leads(c, s, t, law) && t.flusher.FLoadRead?
    requires t.readIndex < t.writeIndex <= t.readIndex + BATCH
    ensures Leads(c, s, u, law) && u == t.(flusher := FLockShards(t.readIndex, t.writeIndex, t.readIndex))
  {
    u := Step(c, s, t, StepFlush(true, 0), law);
    u := Step(c, s, u, StepFlush(true, 0), law);
  }

  lemma {:induction false} LockBatch(c: Config, s: State, t: State, r: nat, end: nat, i: nat, law: Law)
    returns (u: State)
    requires Leads(c, s, t, law) && t.flusher == FLockShards(r, end, i) && i <= end && c.shards == 1
    requires t.shards == [Some(ByFlusher)] || (i < end && t.shards == [None])
    ensures Leads(c, s, u, law)
    ensures u == t.(shards := [Some(ByFlusher)], flusher := FTake(r, end, r))
    decreases end - i
  {
    u := Step(c, s, t, StepFlush(true, 0), law);
    if i < end {
      assert u.shards == [Some(ByFlusher)];
      u := LockBatch(c, s, u, r, end, i + 1, law);
    }
  }

  /** A flush of everything pending up to its first take. */
  lemma OpenFlush(c: Config, s: State, t: State, law: Law) returns (u: State)
    requires Leads(c, s, t, law) && t.flusher.Idle? && t.resize.Free? && t.readers == {}
    requires t.readIndex < t.writeIndex <= t.readIndex + BATCH && c.shards == 1 && t.shards == [None]
    ensures Leads(c, s, u, law)
    ensures u == t.(readers := {FlushReader}, shards := [Some(ByFlusher)],
                    flusher := FTake(t.readIndex, t.writeIndex, t.readIndex))
  {
    u := EnterFlush(c, s, t, law);
    u := LoadBatch(c, s, u, law);
    u := LockBatch(c, s, u, t.readIndex, t.writeIndex, t.readIndex, law);
  }

  /** One index is taken and its entry delivered. */
  lemma Deliver(c: Config, s: State, t: State, r: nat, end: nat, i: nat, id: Call, law: Law) returns (u: State)
    requires Leads(c, s, t, law) && t.flusher == FTake(r, end, i) && i < end
    requires Slot(i, t.mask) < |t.buffer| && t.buffer[Slot(i, t.mask)] == Some(id)
    requires law.timely ==> Timely(t, StepFlush(true, 0))
    ensures Leads(c, s, u, law)
    ensures u == t.(delivered := t.delivered + [id], buffer := t.buffer[Slot(i, t.mask) := None],
                    flusher := FTake(r, end, i + 1))
  {
    var step := StepFlush(true, 0);
    u := Step(c, s, t, step, law);
    u := Step(c, s, u, step, law);
    u := Step(c, s, u, step, law);
  }

  lemma UnlockBatch(c: Config, s: State, t: State, end: nat, law: Law) returns (u: State)
    requires Leads(c, s, t, law) && t.flusher == FUnlockShards(end) && t.shards == [Some(ByFlusher)]
    ensures Leads(c, s, u, law) && u == t.(shards := [None], flusher := FStoreRead(end))
  {
    assert t.shards[0] == Some(ByFlusher);
    u := Step(c, s, t, StepFlush(true, 0), law);
    assert u.shards == [None];
    u := Step(c, s, u, StepFlush(true, 0), law);
  }

  /** The end of a flush, from the end of its batch on. */
  lemma CloseFlush(c: Config, s: State, t: State, end: nat, law: Law) returns (u: State)
    requires Leads(c, s, t, law) && t.flusher == FUnlockShards(end)
    requires t.readers == {FlushReader} && t.shards == [Some(ByFlusher)]
    ensures Leads(c, s, u, law)
    ensures u == t.(readers := {}, shards := [None], readIndex := end, flusher := Idle)
  {
    u := UnlockBatch(c, s, t, end, law);
    u := Step(c, s, u, StepFlush(true, 0), law);
    u := Step(c, s, u, StepFlush(true, 0), law);
  }

  lemma EndFlush(c: Config, s: State, t: State, r: nat, end: nat, law: Law) returns (u: State)
    requires Leads(c, s, t, law) && t.flusher == FTake(r, end, end)
    requires t.readers == {FlushReader} && t.shards == [Some(ByFlusher)]
    ensures Leads(c, s, u, law)
    ensures u == t.(readers := {}, shards := [None], readIndex := end, flusher := Idle)
  {
    u := Step(c, s, t, StepFlush(true, 0), law);
    u := CloseFlush(c, s, u, end, law);
  }

  /** A taken entry is refused, which ends the batch. */
  lemma Refuse(c: Config, s: State, t: State, r: nat, end: nat, i: nat, id: Call, law: Law) returns (u: State)
    requires Leads(c, s, t, law) && t.flusher == FTake(r, end, i) && i < end && !law.sinkOk
    requires Slot(i, t.mask) < |t.buffer| && t.buffer[Slot(i, t.mask)] == Some(id)
    requires law.timely ==> Timely(t, StepFlush(true, 0))
    requires law.dropsStored ==> forall v | i <= v < end && v < |t.claims| :: IsPublished(t, t.claims[v])
    requires t.readers == {FlushReader} && t.shards == [Some(ByFlusher)]
    ensures Leads(c, s, u, law)
    ensures u == t.(readers := {}, shards := [None], readIndex := end, flusher := Idle)
  {
    u := Step(c, s, t, StepFlush(true, 0), law);
    u := Step(c, s, u, StepFlush(false, 0), law);
    u := CloseFlush(c, s, u, end, law);
  }

  /** A whole flush of the one pending entry. */
  lemma WholeFlush(c: Config, s: State, t: State, id: Call, law: Law) returns (u: State)
    requires Leads(c, s, t, law) && t.flusher.Idle? && t.resize.Free? && t.readers == {}
    requires t.writeIndex == t.readIndex + 1 && c.shards == 1 && t.shards == [None]
    requires Slot(t.readIndex, t.mask) < |t.buffer| && t.buffer[Slot(t.readIndex, t.mask)] == Some(id)
    requires t.readIndex < |t.claims| && IsPublished(t, t.claims[t.readIndex])
    ensures Leads(c, s, u, law)
    ensures u == t.(readIndex := t.writeIndex, delivered := t.delivered + [id],
                    buffer := t.buffer[Slot(t.readIndex, t.mask) := None])
  {
    var r, w := t.readIndex, t.writeIndex;
    u := OpenFlush(c, s, t, law);
    u := Deliver(c, s, u, r, w, r, id, law);
    u := EndFlush(c, s, u, r, w, law);
  }

  // ---- maybeResize -----------------------------------------------------------

  /** A waiting growth gets its lock and decides to grow. */
  lemma StartGrowth(c: Config, s: State, t: State, task: Task, law: Law) returns (u: State)
    requires Leads(c, s, t, law) && t.waiting == map[task := FirstCheck] && t.utilization > c.threshold
    requires t.resize.Free? && t.readers == {} && 2 * t.size <= MAX_SIZE
    ensures Leads(c, s, u, law) && u == t.(waiting := map[], resize := Held(task, RLoadRead))
  {
    u := Step(c, s, t, StepWaiting(task), law);
    u := Step(c, s, u, StepWaiting(task), law);
    assert u.waiting == map[];
    u := Step(c, s, u, StepResize, law);
    u := Step(c, s, u, StepResize, law);
  }

  lemma LoadIndices(c: Config, s: State, t: State, task: Task, law: Law) returns (u: State)
    requires Leads(c, s, t, law) && t.resize == Held(task, RLoadRead)
    ensures Leads(c, s, u, law) && u == t.(resize := Held(task, RLockShards(t.readIndex, t.writeIndex, 0)))
  {
    u := Step(c, s, t, StepResize, law);
    u := Step(c, s, u, StepResize, law);
  }

  lemma LockGrowth(c: Config, s: State, t: State, task: Task, law: Law) returns (u: State)
    requires Leads(c, s, t, law) && t.resize == Held(task, RLoadRead) && c.shards == 1 && t.shards == [None]
    ensures Leads(c, s, u, law)
    ensures u == t.(shards := [Some(ByResizer)],
                    resize := Held(task, Copy(t.readIndex, t.writeIndex, t.readIndex, seq(2 * t.size, _ => None))))
  {
    u := LoadIndices(c, s, t, task, law);
    u := Step(c, s, u, StepResize, law);
    assert u.shards == [Some(ByResizer)];
    u := Step(c, s, u, StepResize, law);
  }

  /** One slot is copied. */
  lemma CopySlot(c: Config, s: State, t: State, task: Task, r: nat, w: nat, i: nat, grown: Slots, law: Law)
    returns (u: State)
    requires Leads(c, s, t, law) && t.resize == Held(task, Copy(r, w, i, grown)) && i < w
    requires Slot(i, 2 * t.size - 1) < |grown| && Slot(i, t.mask) < |t.buffer|
    ensures Leads(c, s, u, law)
    ensures var copied := grown[Slot(i, 2 * t.size - 1) := t.buffer[Slot(i, t.mask)]];
            u == t.(resize := Held(task, Copy(r, w, i + 1, copied)))
  {
    u := Step(c, s, t, StepResize, law);
  }

  /** Everything is copied; the shard is let go. */
  lemma EndCopy(c: Config, s: State, t: State, task: Task, r: nat, w: nat, grown: Slots, law: Law) returns (u: State)
    requires Leads(c, s, t, law) && t.resize == Held(task, Copy(r, w, w, grown))
    requires c.shards == 1 && t.shards == [Some(ByResizer)]
    ensures Leads(c, s, u, law) && u == t.(shards := [None], resize := Held(task, SetBuffer(grown)))
  {
    u := Step(c, s, t, StepResize, law);
    u := Step(c, s, u, StepResize, law);
    assert u.shards == [None];
    u := Step(c, s, u, StepResize, law);
  }

  /** The new buffer and size are stored, the new mask is not. */
  lemma InstallSize(c: Config, s: State, t: State, task: Task, grown: Slots, law: Law) returns (u: State)
    requires Leads(c, s, t, law) && t.resize == Held(task, SetBuffer(grown))
    ensures Leads(c, s, u, law)
    ensures u == t.(buffer := grown, size := 2 * t.size, resize := Held(task, SetMask(2 * t.size)))
  {
    u := Step(c, s, t, StepResize, law);
    u := Step(c, s, u, StepResize, law);
  }

  lemma InstallMask(c: Config, s: State, t: State, task: Task, size: Size, law: Law) returns (u: State)
    requires Leads(c, s, t, law) && t.resize == Held(task, SetMask(size))
    ensures Leads(c, s, u, law) && u == t.(mask := size - 1, resize := Free)
  {
    u := Step(c, s, t, StepResize, law);
    u := Step(c, s, u, StepResize, law);
  }
}
