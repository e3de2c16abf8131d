/** Exactly when a writer that retries on a ring can still get its entry in: unless it
    has given up, the ring has room, or a flush can still make some. */
module AsyncAdmission {
  import opened Bits
  import opened Wrappers
  import opened AsyncProtocol
  import opened AsyncSafety
  import opened AsyncProof
  import opened AsyncTheorems
  import opened AsyncOrder
  import opened AsyncScenario
  import opened AsyncStarvation

  /** The entry will be refused, whatever others do: drop mode has seen a full ring, or
      the writer has given up. */
  predicate Decided(c: Config, s: State, id: Call)
  {
    && id in s.calls
    && match s.calls[id]
       case Drop(_) => true
       case CheckFull(slow, w, r) => slow && c.mode == DropMode && Usage(w, r) > s.size
       case pc => Refused(pc)
  }

  predicate HasRoom(s: State)
  {
    s.writeIndex < s.readIndex + s.size
  }

  // ---- the flush makes room -------------------------------------------------

  /** The ring is full, and a flush is under way or nothing keeps one from its lock. */
  ghost predicate Relievable(c: Config, s: State, id: Call)
  {
    && Inv(c, s) && id in s.calls && Retrying(s.calls[id])
    && s.writeIndex == s.readIndex + s.size && (s.resize.Free? || !Outside(s.flusher))
  }

  /** The parts of a flush still ahead of the store of its index. */
  function Stage(pc: FlushPc): nat
  {
    match pc
    case FReleaseRead => 8
    case Idle => 7
    case FAwaitRead => 6
    case FLoadRead => 5
    case FLoadWrite(_) => 4
    case FLockShards(_, _, _) => 3
    case FTake(_, _, _) => 2
    case FPut(_, _, _, _) => 2
    case FClear(_, _, _, _) => 2
    case FUnlockShards(_) => 1
    case FStoreRead(_) => 0
  }

  /** The work left in that part. */
  function Left(s: State): int
  {
    match s.flusher
    case FLockShards(_, end, i) => end - i
    case FTake(_, end, i) => 3 * (end - i)
    case FPut(_, end, i, _) => 3 * (end - i) - 1
    case FClear(_, end, i, _) => 3 * (end - i) - 2
    case FUnlockShards(_) => multiset(s.shards)[Some(ByFlusher)]
    case _ => 0
  }

  /** The steps after which a call lets its shard go. */
  function StepsToUnlock(pc: CallPc): nat
  {
    if pc.Store? then 2 else if pc.UnlockShard? then 1 else 0
  }

  /** Those of the call that has the shard the flush wants next. */
  function Delay(c: Config, s: State): nat
  {
    match s.flusher
    case FLockShards(_, end, i) =>
      if i < end && i % c.shards < |s.shards| then
        match s.shards[i % c.shards]
        case Some(ByCall(id)) => if id in s.calls then StepsToUnlock(s.calls[id]) else 0
        case _ => 0
      else 0
    case _ => 0
  }

  predicate Lower(c: Config, s: State, t: State)
  {
    || Stage(t.flusher) < Stage(s.flusher)
    || (Stage(t.flusher) == Stage(s.flusher) && Left(t) < Left(s))
    || (Stage(t.flusher) == Stage(s.flusher) && Left(t) == Left(s) && Delay(c, t) < Delay(c, s))
  }

  /** One step closer to the store, or past it, and the writer left where it was. */
  predicate Nearer(c: Config, s: State, t: State, id: Call)
  {
    && id in s.calls && id in t.calls && t.calls[id] == s.calls[id]
    && t.size == s.size && t.writeIndex == s.writeIndex && t.resize == s.resize
    && (t.readIndex > s.readIndex
        || (t.readIndex == s.readIndex && !(t.resize.Held? && Outside(t.flusher)) && Lower(c, s, t)))
  }

  predicate Advances(c: Config, s: State, a: Action, id: Call)
  {
    Enabled(c, s, a) && SinkAccepts(a) && Nearer(c, s, Next(c, s, a), id)
  }

  const FLUSH := StepFlush(true, 0)

  lemma ApproachAdvances(c: Config, s: State, id: Call)
    requires FlushOk(s) && id in s.calls && s.writeIndex == s.readIndex + s.size
    requires (s.resize.Free? || !Outside(s.flusher)) && Stage(s.flusher) >= 4
    ensures Advances(c, s, FLUSH, id)
  {
  }

  lemma OpenShardAdvances(c: Config, s: State, id: Call)
    requires FlushOk(s) && id in s.calls && s.flusher.FLockShards? && FlushEnabled(c, s, 0)
    ensures Advances(c, s, FLUSH, id)
  {
  }

  lemma NoResizerShard(c: Config, s: State, id: Call, k: nat)
    requires Relievable(c, s, id) && k < |s.shards|
    ensures s.shards[k] != Some(ByResizer)
  {
    assert CallReader(id) in s.readers;
    assert s.shards[k] == Some(ByResizer) <==> ResizeHolds(s, k);
  }

  lemma HolderAdvances(c: Config, s: State, id: Call, k: nat) returns (a: Action)
    requires Relievable(c, s, id) && s.flusher.FLockShards? && s.flusher.i < s.flusher.end
    requires k == s.flusher.i % c.shards && s.shards[k].Some? && s.shards[k].value.ByCall?
    ensures Advances(c, s, a, id)
  {
    var holder := s.shards[k].value.id;
    assert CallHolds(c, s.calls[holder], k);
    a := StepCall(holder, false, 0);
    var t := Next(c, s, a);
    assert t.calls == s.calls[holder := t.calls[holder]];
    assert StepsToUnlock(t.calls[holder]) < StepsToUnlock(s.calls[holder]);
  }

  /** A batch is locked shard by shard; a call that has the next shard steps out of it. */
  lemma LockAdvances(c: Config, s: State, id: Call) returns (a: Action)
    requires Relievable(c, s, id) && s.flusher.FLockShards?
    ensures Advances(c, s, a, id)
  {
    a := FLUSH;
    if FlushEnabled(c, s, 0) {
      OpenShardAdvances(c, s, id);
    } else {
      var k := s.flusher.i % c.shards;
      NoResizerShard(c, s, id, k);
      a := HolderAdvances(c, s, id, k);
    }
  }

  lemma TakeAdvances(c: Config, s: State, id: Call)
    requires s.mask < |s.buffer| && FlushOk(s) && id in s.calls && Stage(s.flusher) == 2
    ensures Advances(c, s, FLUSH, id)
  {
  }

  lemma UnlockAdvances(c: Config, s: State, id: Call) returns (a: Action)
    requires id in s.calls && s.flusher.FUnlockShards?
    ensures Advances(c, s, a, id)
  {
    a := FLUSH;
    if Some(ByFlusher) in s.shards {
      var k :| 0 <= k < |s.shards| && s.shards[k] == Some(ByFlusher);
      a := StepFlush(true, k);
      assert multiset(s.shards[k := None])[Some(ByFlusher)] == multiset(s.shards)[Some(ByFlusher)] - 1;
    }
  }

  lemma FlushAdvances(c: Config, s: State, id: Call) returns (a: Action)
    requires Relievable(c, s, id)
    ensures Advances(c, s, a, id)
  {
    a := FLUSH;
    if Stage(s.flusher) >= 4 {
      ApproachAdvances(c, s, id);
    } else if s.flusher.FLockShards? {
      a := LockAdvances(c, s, id);
    } else if Stage(s.flusher) == 2 {
      TakeAdvances(c, s, id);
    } else if s.flusher.FUnlockShards? {
      a := UnlockAdvances(c, s, id);
    }
  }

  /** So the flush can run on until it has stored its index. */
  lemma {:induction false} FlushMakesRoom(c: Config, base: State, s: State, id: Call) returns (t: State)
    requires Leads(c, base, s, SOUND) && Relievable(c, s, id)
    ensures Leads(c, base, t, SOUND) && Inv(c, t) && HasRoom(t) && t.size == s.size
    ensures id in t.calls && t.calls[id] == s.calls[id]
    decreases Stage(s.flusher), Left(s), Delay(c, s)
  {
    var a := FlushAdvances(c, s, id);
    StepKeepsInv(c, s, a);
    t := Step(c, base, s, a, SOUND);
    if !HasRoom(t) {
      t := FlushMakesRoom(c, base, t, id);
    }
  }

  // ---- the writer takes it ----------------------------------------------------

  lemma WriterSteps(c: Config, base: State, s: State, id: Call) returns (t: State)
    requires Leads(c, base, s, SOUND) && CallEnabled(c, s, id, 0)
    ensures Leads(c, base, t, SOUND) && t == CallNext(c, s, id, false, 0)
  {
    t := Step(c, base, s, StepCall(id, false, 0), SOUND);
  }

  /** From its fresh loads on. */
  lemma FreshWriterClaims(c: Config, base: State, s: State, id: Call) returns (t: State)
    requires Leads(c, base, s, SOUND) && HasRoom(s) && id in s.calls && s.calls[id] == LoadWrite(true)
    ensures Leads(c, base, t, SOUND) && id in t.calls && Claimed(t.calls[id])
  {
    t := WriterSteps(c, base, s, id);
    t := WriterSteps(c, base, t, id);
    t := WriterSteps(c, base, t, id);
    t := WriterSteps(c, base, t, id);
  }

  /** A stale claim fails and is tried again. */
  lemma ClaimingWriterClaims(c: Config, base: State, s: State, id: Call) returns (t: State)
    requires Leads(c, base, s, SOUND) && HasRoom(s) && id in s.calls && s.calls[id].Claim? && s.calls[id].slow
    ensures Leads(c, base, t, SOUND) && id in t.calls && Claimed(t.calls[id])
  {
    t := WriterSteps(c, base, s, id);
    if !Claimed(t.calls[id]) {
      t := FreshWriterClaims(c, base, t, id);
    }
  }

  lemma CheckingWriterClaims(c: Config, base: State, s: State, id: Call) returns (t: State)
    requires Leads(c, base, s, SOUND) && HasRoom(s) && id in s.calls && s.calls[id].CheckFull? && s.calls[id].slow
    requires !Decided(c, s, id)
    ensures Leads(c, base, t, SOUND) && id in t.calls && Claimed(t.calls[id])
  {
    t := WriterSteps(c, base, s, id);
    if t.calls[id].Claim? {
      t := ClaimingWriterClaims(c, base, t, id);
    } else {
      t := FreshWriterClaims(c, base, t, id);
    }
  }

  lemma WriterClaims(c: Config, base: State, s: State, id: Call) returns (t: State)
    requires Leads(c, base, s, SOUND) && CallsOk(s) && HasRoom(s)
    requires id in s.calls && Retrying(s.calls[id]) && !Decided(c, s, id)
    ensures Leads(c, base, t, SOUND) && id in t.calls && Claimed(t.calls[id])
  {
    match s.calls[id]
    case LoadWrite(_) => t := FreshWriterClaims(c, base, s, id);
    case LoadRead(_, w) =>
      assert CallOk(s, id, s.calls[id]);
      t := WriterSteps(c, base, s, id);
      t := CheckingWriterClaims(c, base, t, id);
    case CheckFull(_, _, _) => t := CheckingWriterClaims(c, base, s, id);
    case Claim(_, _, _) => t := ClaimingWriterClaims(c, base, s, id);
  }

  // ---- what is decided stays so -----------------------------------------------

  lemma CallKeepsDecided(c: Config, s: State, id: Call, giveUp: bool, spawn: Task, me: Call)
    requires Decided(c, s, me) && CallEnabled(c, s, id, spawn)
    ensures Decided(c, CallNext(c, s, id, giveUp, spawn), me)
  {
  }

  lemma StepKeepsDecided(c: Config, s: State, a: Action, me: Call)
    requires ReadersOk(s) && Decided(c, s, me) && Enabled(c, s, a)
    ensures Decided(c, Next(c, s, a), me)
  {
    match a
    case StepCall(id, giveUp, spawn) => CallKeepsDecided(c, s, id, giveUp, spawn, me);
    case StepFlush(sinkOk, shard) => assert Next(c, s, a).calls == s.calls;
    case StepResize =>
      assert Next(c, s, a).calls == s.calls;
      if CallReads(s.calls[me]) {
        ReaderStopsGrowth(c, s, me);
      }
    case _ =>
  }

  lemma {:induction false} RunKeepsDecided(c: Config, s: State, run: seq<Action>, me: Call)
    requires Inv(c, s) && Decided(c, s, me) && Possible(c, s, run)
    ensures Decided(c, After(c, s, run), me)
    decreases |run|
  {
    if run != [] {
      StepKeepsInv(c, s, run[0]);
      StepKeepsDecided(c, s, run[0], me);
      RunKeepsDecided(c, Next(c, s, run[0]), run[1..], me);
    }
  }

  // ---- the theorem ------------------------------------------------------------

  ghost predicate GetsIn(c: Config, s: State, run: seq<Action>, id: Call)
  {
    Possible(c, s, run) && id in After(c, s, run).calls && Claimed(After(c, s, run).calls[id])
  }

  lemma Admission(c: Config, s: State, id: Call) returns (run: seq<Action>)
    requires Inv(c, s) && id in s.calls && Retrying(s.calls[id])
    requires !Decided(c, s, id) && !KeptOut(s)
    ensures GetsIn(c, s, run, id)
  {
    Stay(c, s, SOUND);
    var t := s;
    if !HasRoom(s) {
      t := FlushMakesRoom(c, s, s, id);
    }
    t := WriterClaims(c, s, t, id);
    run :| Drives(c, s, run, t, SOUND);
  }

  lemma NoAdmission(c: Config, s: State, run: seq<Action>, id: Call)
    requires Inv(c, s) && id in s.calls && Retrying(s.calls[id]) && Possible(c, s, run)
    requires Decided(c, s, id) || KeptOut(s)
    ensures !GetsIn(c, s, run, id)
  {
    if Decided(c, s, id) {
      RunKeepsDecided(c, s, run, id);
    } else {
      RunKeepsDoomed(c, s, s, run, id);
    }
  }

  /** In every reachable state, some continuation gets the entry of a writer that
      retries into the ring if and only if the writer has not given up and is not
      starved: there is room, or a flush is under way, or no growth keeps one out. */
  lemma AdmittedExactly(c: Config, before: seq<Action>, id: Call)
    requires IsPow2(c.size) && Possible(c, Init(c), before)
    requires id in Reached(c, before).calls && Retrying(Reached(c, before).calls[id])
    ensures var s := Reached(c, before);
            (exists after :: GetsIn(c, s, after, id)) <==> !Decided(c, s, id) && !KeptOut(s)
  {
    ReachedInv(c, before);
    var s := Reached(c, before);
    if !Decided(c, s, id) && !KeptOut(s) {
      var after := Admission(c, s, id);
    } else {
      forall after | Possible(c, s, after) ensures !GetsIn(c, s, after, id) {
        NoAdmission(c, s, after, id);
      }
    }
  }
}
