/** No reachable interleaving has a cycle of lock waits, and somebody can always step. */
module AsyncLocks {
  import opened Bits
  import opened Wrappers
  import opened AsyncProtocol
  import opened AsyncSafety
  import opened AsyncTheorems

  datatype Thread = Caller(id: Call) | Flusher | Queued(task: Task) | Resizer

  ghost predicate OwnedBy(owner: Option<Owner>, u: Thread)
  {
    match owner
    case Some(ByCall(id)) => u == Caller(id)
    case Some(ByFlusher) => u == Flusher
    case Some(ByResizer) => u == Resizer
    case None => false
  }

  /** t is stopped at a lock that u keeps it from getting. A pending or active owner
      of the writer side of the resize lock keeps every new reader out. */
  ghost predicate WaitsFor(c: Config, s: State, t: Thread, u: Thread)
  {
    match t
    case Caller(id) =>
      id in s.calls &&
      (match s.calls[id]
       case LockShard(_, w, _) => w % c.shards < |s.shards| && OwnedBy(s.shards[w % c.shards], u)
       case AwaitRead => s.resize.Held? && u == Resizer
       case _ => false)
    case Flusher =>
      (match s.flusher
       case FAwaitRead => s.resize.Held? && u == Resizer
       case FLockShards(_, end, i) =>
         i < end && i % c.shards < |s.shards| && u != Flusher && OwnedBy(s.shards[i % c.shards], u)
       case _ => false)
    case Queued(task) =>
      task in s.waiting && s.waiting[task] == AwaitLock && s.resize.Held? && u == Resizer
    case Resizer =>
      s.resize.Held? &&
      (match s.resize.pc
       case Draining =>
         (u == Flusher && FlushReader in s.readers) || (u.Caller? && CallReader(u.id) in s.readers)
       case RLockShards(_, _, k) => k < |s.shards| && OwnedBy(s.shards[k], u)
       case _ => false)
  }

  /** A waits-for edge always leads to a smaller rank. */
  function Rank(s: State, t: Thread): nat
  {
    match t
    case Caller(id) =>
      if id !in s.calls then 0
      else if s.calls[id].AwaitRead? then 4
      else if s.calls[id].LockShard? then 2
      else 0
    case Flusher => if s.flusher.FAwaitRead? then 4 else if s.flusher.FLockShards? then 1 else 0
    case Queued(_) => 4
    case Resizer =>
      if s.resize.Free? then 0
      else if s.resize.pc.Draining? then 3
      else if s.resize.pc.RLockShards? then 1
      else 0
  }

  lemma WaitLowersRank(c: Config, s: State, t: Thread, u: Thread)
    requires ReadersOk(s) && ShardsOk(c, s) && WaitsFor(c, s, t, u)
    ensures Rank(s, u) < Rank(s, t)
  {
    match t
    case Caller(id) =>
      if s.calls[id].LockShard? {
        var k := s.calls[id].w % c.shards;
        assert s.shards[k] == Some(ByResizer) ==> ResizeHolds(s, k);
      }
    case Flusher =>
      if s.flusher.FLockShards? {
        var k := s.flusher.i % c.shards;
        assert FlushReader in s.readers;
        assert s.shards[k] == Some(ByResizer) ==> ResizeHolds(s, k);
      }
    case Queued(task) =>
    case Resizer =>
      if s.resize.pc.Draining? {
        if u.Caller? {
          assert CallReads(s.calls[u.id]);
        } else {
          assert FlushReads(s.flusher);
        }
      } else {
        var k := s.resize.pc.k;
        assert !ResizeHolds(s, k);
        assert FlushReader !in s.readers;
      }
  }

  ghost predicate WaitChain(c: Config, s: State, chain: seq<Thread>)
  {
    forall i | 0 <= i < |chain| - 1 :: WaitsFor(c, s, chain[i], chain[i + 1])
  }

  lemma {:induction false} ChainLowersRank(c: Config, s: State, chain: seq<Thread>)
    requires ReadersOk(s) && ShardsOk(c, s) && |chain| >= 2 && WaitChain(c, s, chain)
    ensures Rank(s, chain[|chain| - 1]) < Rank(s, chain[0])
  {
    WaitLowersRank(c, s, chain[0], chain[1]);
    if |chain| > 2 {
      var rest := chain[1..];
      forall i | 0 <= i < |rest| - 1 ensures WaitsFor(c, s, rest[i], rest[i + 1]) {
        assert WaitsFor(c, s, chain[i + 1], chain[i + 1 + 1]);
      }
      ChainLowersRank(c, s, rest);
    }
  }

  /** No chain of lock waits, however long, ever returns to where it started. */
  lemma NoWaitCycle(c: Config, run: seq<Action>, chain: seq<Thread>)
    requires IsPow2(c.size) && Possible(c, Init(c), run)
    requires |chain| >= 2 && WaitChain(c, Reached(c, run), chain)
    ensures chain[0] != chain[|chain| - 1]
  {
    ReachedInv(c, run);
    ChainLowersRank(c, Reached(c, run), chain);
  }

  // ---- progress -------------------------------------------------------------

  /** A thread with something left to do. */
  predicate Busy(s: State, t: Thread)
  {
    match t
    case Caller(id) => id in s.calls && !s.calls[id].Returned?
    case Flusher => true
    case Queued(task) => task in s.waiting
    case Resizer => s.resize.Held?
  }

  ghost predicate CanStep(c: Config, s: State, t: Thread)
  {
    match t
    case Caller(id) => exists spawn: Task :: CallEnabled(c, s, id, spawn)
    case Flusher => exists shard: nat :: FlushEnabled(c, s, shard)
    case Queued(task) => WaitingEnabled(s, task)
    case Resizer => ResizeEnabled(c, s)
  }

  lemma {:induction false} UpperBound(tasks: set<Task>) returns (b: Task)
    ensures forall t | t in tasks :: t < b
  {
    if tasks == {} {
      b := 0;
    } else {
      var x :| x in tasks;
      var b' := UpperBound(tasks - {x});
      b := if b' > x then b' else x + 1;
      assert forall t | t in tasks :: t == x || t in tasks - {x};
    }
  }

  /** A busy thread can step or waits for a busy thread. */
  lemma StepOrWait(c: Config, s: State, t: Thread) returns (u: Thread)
    requires Inv(c, s) && Busy(s, t)
    ensures CanStep(c, s, t) || (WaitsFor(c, s, t, u) && Busy(s, u))
  {
    u := t;
    match t
    case Caller(id) => u := CallStepsOrWaits(c, s, id);
    case Flusher => u := FlushStepsOrWaits(c, s);
    case Queued(task) => u := Resizer;
    case Resizer => u := ResizeStepsOrWaits(c, s);
  }

  function OwnerThread(o: Owner): Thread
  {
    match o
    case ByCall(id) => Caller(id)
    case ByFlusher => Flusher
    case ByResizer => Resizer
  }

  lemma OwnerBusy(c: Config, s: State, k: nat)
    requires ShardsOk(c, s) && k < |s.shards| && s.shards[k].Some?
    ensures Busy(s, OwnerThread(s.shards[k].value)) && OwnedBy(s.shards[k], OwnerThread(s.shards[k].value))
  {
    if s.shards[k].value.ByResizer? {
      assert ResizeHolds(s, k);
    }
  }

  lemma CallStepsOrWaits(c: Config, s: State, id: Call) returns (u: Thread)
    requires Shape(c, s) && ShardsOk(c, s) && Busy(s, Caller(id))
    ensures CanStep(c, s, Caller(id)) || (WaitsFor(c, s, Caller(id), u) && Busy(s, u))
  {
    u := Resizer;
    var pc := s.calls[id];
    if pc.LockShard? && s.shards[pc.w % c.shards].Some? {
      OwnerBusy(c, s, pc.w % c.shards);
      u := OwnerThread(s.shards[pc.w % c.shards].value);
    } else if pc.MaybeSpawn? {
      var spawn := UpperBound(s.waiting.Keys + (if s.resize.Held? then {s.resize.task} else {}));
      assert CallEnabled(c, s, id, spawn);
    } else if !pc.AwaitRead? || s.resize.Free? {
      assert CallEnabled(c, s, id, 0);
    }
  }

  lemma FlushStepsOrWaits(c: Config, s: State) returns (u: Thread)
    requires Shape(c, s) && ShardsOk(c, s)
    ensures CanStep(c, s, Flusher) || (WaitsFor(c, s, Flusher, u) && Busy(s, u))
  {
    u := Resizer;
    if s.flusher.FUnlockShards? && Some(ByFlusher) in s.shards {
      var k :| 0 <= k < |s.shards| && s.shards[k] == Some(ByFlusher);
      assert FlushEnabled(c, s, k);
    } else if FlushEnabled(c, s, 0) {
    } else if s.flusher.FLockShards? {
      OwnerBusy(c, s, s.flusher.i % c.shards);
      u := OwnerThread(s.shards[s.flusher.i % c.shards].value);
    }
  }

  lemma ResizeStepsOrWaits(c: Config, s: State) returns (u: Thread)
    requires Shape(c, s) && GrownShape(s) && ShardsOk(c, s) && ReadersOk(s) && s.resize.Held?
    ensures CanStep(c, s, Resizer) || (WaitsFor(c, s, Resizer, u) && Busy(s, u))
  {
    u := Resizer;
    if s.resize.pc.Draining? && s.readers != {} {
      var x :| x in s.readers;
      match x
      case FlushReader => u := Flusher;
      case CallReader(id) =>
        u := Caller(id);
        assert CallReads(s.calls[id]);
    } else if s.resize.pc.RLockShards? && s.resize.pc.k < c.shards && s.shards[s.resize.pc.k].Some? {
      OwnerBusy(c, s, s.resize.pc.k);
      u := OwnerThread(s.shards[s.resize.pc.k].value);
    }
  }

  /** A chain of lock waits from t to a thread that can step. */
  ghost predicate Resolves(c: Config, s: State, t: Thread, chain: seq<Thread>)
  {
    && chain != [] && chain[0] == t && WaitChain(c, s, chain)
    && CanStep(c, s, chain[|chain| - 1])
  }

  lemma ChainExtends(c: Config, s: State, t: Thread, u: Thread, chain: seq<Thread>)
    requires WaitsFor(c, s, t, u) && Resolves(c, s, u, chain)
    ensures Resolves(c, s, t, [t] + chain)
  {
    var longer := [t] + chain;
    forall i | 0 <= i < |longer| - 1 ensures WaitsFor(c, s, longer[i], longer[i + 1]) {
      assert i > 0 ==> WaitsFor(c, s, chain[i - 1], chain[i - 1 + 1]);
    }
  }

  lemma {:induction false} WaitsResolve(c: Config, s: State, t: Thread) returns (chain: seq<Thread>)
    requires Inv(c, s) && Busy(s, t)
    ensures Resolves(c, s, t, chain)
    decreases Rank(s, t)
  {
    var u := StepOrWait(c, s, t);
    if CanStep(c, s, t) {
      chain := [t];
    } else {
      WaitLowersRank(c, s, t, u);
      var rest := WaitsResolve(c, s, u);
      ChainExtends(c, s, t, u, rest);
      chain := [t] + rest;
    }
  }

  /** In every reachable state, whenever a thread has work left, following its waits,
      each for a lock the next one keeps it from, leads to a thread that can take a
      step: the locks never deadlock. */
  lemma NoDeadlock(c: Config, run: seq<Action>, t: Thread)
    requires IsPow2(c.size) && Possible(c, Init(c), run) && Busy(Reached(c, run), t)
    ensures exists chain :: Resolves(c, Reached(c, run), t, chain)
  {
    ReachedInv(c, run);
    var chain := WaitsResolve(c, Reached(c, run), t);
  }
}
