/** A blocked writer that keeps the flush out. It retries under the read lock; a growth
    that waits for it keeps new readers out, and the flush is a new reader. */
module AsyncStarvation {
  import opened Bits
  import opened Wrappers
  import opened AsyncProtocol
  import opened AsyncSafety
  import opened AsyncProof
  import opened AsyncTheorems
  import opened AsyncLocks
  import opened AsyncScenario

  /** On the slow path, before a successful claim. */
  predicate Retrying(pc: CallPc)
  {
    match pc
    case LoadWrite(slow) => slow
    case LoadRead(slow, _) => slow
    case CheckFull(slow, _, _) => slow
    case Claim(slow, _, _) => slow
    case Drop(slow) => slow
    case _ => false
  }

  /** The flush has not passed the resize lock, or has stored its index already. */
  predicate Outside(pc: FlushPc)
  {
    pc.Idle? || pc.FAwaitRead? || pc.FReleaseRead?
  }

  /** The ring is full, a growth holds or awaits the resize lock and the flush is on
      the other side of it. */
  predicate KeptOut(s: State)
  {
    s.writeIndex == s.readIndex + s.size && s.resize.Held? && Outside(s.flusher)
  }

  /** And a writer retries. */
  predicate Starved(s: State, id: Call)
  {
    id in s.calls && Retrying(s.calls[id]) && KeptOut(s)
  }

  /** The growth waits for the writer, and the flush, once it is back at the lock, for
      the growth. */
  lemma StarvedWaits(c: Config, s: State, id: Call)
    requires ReadersOk(s) && Starved(s, id)
    ensures WaitsFor(c, s, Resizer, Caller(id))
    ensures s.flusher.FAwaitRead? ==> WaitsFor(c, s, Flusher, Resizer)
  {
    assert CallReader(id) in s.readers;
  }

  lemma ReaderStopsGrowth(c: Config, s: State, id: Call)
    requires ReadersOk(s) && id in s.calls && CallReads(s.calls[id])
    ensures !ResizeEnabled(c, s)
  {
    assert CallReader(id) in s.readers;
  }

  /** Refused, or bound to be, with nothing claimed, read or delivered since `base`. */
  predicate Doomed(base: State, s: State, id: Call)
  {
    || (id in s.calls && Refused(s.calls[id]))
    || (Starved(s, id) && s.claims == base.claims && s.readIndex == base.readIndex && s.delivered == base.delivered)
  }

  lemma FullRingRefuses(c: Config, s: State, id: Call)
    requires CallsOk(s) && s.writeIndex == s.readIndex + s.size && id in s.calls && s.calls[id].Claim?
    ensures s.calls[id].w != s.writeIndex
  {
    assert CallOk(s, id, s.calls[id]);
  }

  lemma CallKeepsDoomed(c: Config, base: State, s: State, id: Call, giveUp: bool, spawn: Task, me: Call)
    requires CallsOk(s) && Doomed(base, s, me) && CallEnabled(c, s, id, spawn)
    ensures Doomed(base, CallNext(c, s, id, giveUp, spawn), me)
  {
    if Starved(s, me) {
      if s.calls[id].Claim? {
        FullRingRefuses(c, s, id);
      }
      if id == me && s.calls[me].CheckFull? {
        assert Retrying(AfterCheck(c, s.size, true, s.calls[me].w, s.calls[me].r, giveUp));
      }
    }
  }

  lemma FlushKeepsDoomed(c: Config, base: State, s: State, sinkOk: bool, shard: nat, me: Call)
    requires Doomed(base, s, me) && FlushEnabled(c, s, shard)
    ensures Doomed(base, FlushNext(c, s, sinkOk, shard), me)
  {
    assert FlushNext(c, s, sinkOk, shard).calls == s.calls;
  }

  lemma WaitingKeepsDoomed(c: Config, base: State, s: State, task: Task, me: Call)
    requires Doomed(base, s, me) && WaitingEnabled(s, task)
    ensures Doomed(base, WaitingNext(c, s, task), me)
  {
  }

  lemma ResizeKeepsDoomed(c: Config, base: State, s: State, me: Call)
    requires ReadersOk(s) && Doomed(base, s, me) && ResizeEnabled(c, s)
    ensures Doomed(base, ResizeNext(c, s), me)
  {
    assert ResizeNext(c, s).calls == s.calls;
    if Starved(s, me) {
      ReaderStopsGrowth(c, s, me);
    }
  }

  lemma StepKeepsDoomed(c: Config, base: State, s: State, a: Action, me: Call)
    requires CallsOk(s) && ReadersOk(s) && Doomed(base, s, me) && Enabled(c, s, a)
    ensures Doomed(base, Next(c, s, a), me)
  {
    match a
    case NewCall(id) =>
    case StepCall(id, giveUp, spawn) => CallKeepsDoomed(c, base, s, id, giveUp, spawn, me);
    case StepFlush(sinkOk, shard) => FlushKeepsDoomed(c, base, s, sinkOk, shard, me);
    case StepWaiting(task) => WaitingKeepsDoomed(c, base, s, task, me);
    case StepResize => ResizeKeepsDoomed(c, base, s, me);
  }

  lemma {:induction false} RunKeepsDoomed(c: Config, base: State, s: State, run: seq<Action>, me: Call)
    requires Inv(c, s) && Doomed(base, s, me) && Possible(c, s, run)
    ensures Doomed(base, After(c, s, run), me)
    decreases |run|
  {
    if run != [] {
      StepKeepsInv(c, s, run[0]);
      StepKeepsDoomed(c, base, s, run[0], me);
      RunKeepsDoomed(c, base, Next(c, s, run[0]), run[1..], me);
    }
  }

  /** From a reachable starved state on, whatever happens and however healthy the sink
      is, the writer's entry is never accepted, and if the call returns, it is with the
      error; until then nothing is read, nothing is claimed and the sink gets nothing. */
  lemma StarvedEntryRefused(c: Config, before: seq<Action>, after: seq<Action>, id: Call)
    requires IsPow2(c.size) && Possible(c, Init(c), before)
    requires Starved(Reached(c, before), id) && Possible(c, Reached(c, before), after)
    ensures var s, t := Reached(c, before), After(c, Reached(c, before), after);
            && id in t.calls && !Claimed(t.calls[id])
            && (t.calls[id].Returned? ==> !t.calls[id].accepted)
            && (Refused(t.calls[id])
                || (Starved(t, id) && t.claims == s.claims && t.readIndex == s.readIndex && t.delivered == s.delivered))
  {
    ReachedInv(c, before);
    RunKeepsDoomed(c, Reached(c, before), Reached(c, before), after, id);
  }

  // ---- it happens ------------------------------------------------------------

  const BLOCKING := Config(BlockMode, true, 75, 1, 1)

  /** Call 0 fills the ring and starts a growth; call 1 finds it full and blocks. */
  lemma SecondBlocks() returns (t: State)
    ensures Leads(BLOCKING, Init(BLOCKING), t, SOUND)
    ensures t == Init(BLOCKING).(writeIndex := 1, claims := [0], buffer := [Some(0)], utilization := 100,
                                 waiting := map[0 := FirstCheck], readers := {CallReader(1)},
                                 calls := map[0 := Returned(true), 1 := LoadWrite(true)])
  {
    var s := Init(BLOCKING);
    assert s.buffer == [None] && s.shards == [None];
    Stay(BLOCKING, s, SOUND);
    t := WholeCall(BLOCKING, s, s, 0, 0, SOUND);
    assert t.buffer == [Some(0)];
    t := Block(s, t);
  }

  lemma FindFull(s: State, t: State) returns (u: State)
    requires Leads(BLOCKING, s, t, SOUND) && 1 !in t.calls && Usage(t.writeIndex, t.readIndex) > t.size
    ensures Leads(BLOCKING, s, u, SOUND) && u == t.(calls := t.calls[1 := AwaitRead])
  {
    u := Step(BLOCKING, s, t, NewCall(1), SOUND);
    u := Step(BLOCKING, s, u, StepCall(1, false, 0), SOUND);
    u := Step(BLOCKING, s, u, StepCall(1, false, 0), SOUND);
    u := Step(BLOCKING, s, u, StepCall(1, false, 0), SOUND);
  }

  lemma Block(s: State, t: State) returns (u: State)
    requires Leads(BLOCKING, s, t, SOUND) && 1 !in t.calls && Usage(t.writeIndex, t.readIndex) > t.size
    requires t.resize.Free?
    ensures Leads(BLOCKING, s, u, SOUND)
    ensures u == t.(readers := t.readers + {CallReader(1)}, calls := t.calls[1 := LoadWrite(true)])
  {
    u := FindFull(s, t);
    u := Step(BLOCKING, s, u, StepCall(1, false, 0), SOUND);
  }

  /** Then the flush comes up against the growth that waits for call 1. */
  lemma StarvationHappens()
    ensures exists run :: Possible(BLOCKING, Init(BLOCKING), run) && Starved(Reached(BLOCKING, run), 1)
  {
    var s := Init(BLOCKING);
    var t := SecondBlocks();
    t := Step(BLOCKING, s, t, StepWaiting(0), SOUND);
    t := Step(BLOCKING, s, t, StepWaiting(0), SOUND);
    t := Step(BLOCKING, s, t, StepFlush(true, 0), SOUND);
    var run :| Drives(BLOCKING, s, run, t, SOUND);
    assert Starved(Reached(BLOCKING, run), 1);
  }
}
