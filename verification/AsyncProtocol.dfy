/** The asynchronous ring buffer as a state machine over its shared-memory steps.

    Any number of `write` calls, one flushing worker and any number of
    `maybeResize` goroutines interleave freely. Every atomic load, compare-and-swap,
    slot access, lock operation and field store is one step. An entry is named by
    the call that brought it. */
module AsyncProtocol {
  import opened Bits
  import opened Wrappers

  type Call = nat
  type Task = nat
  type Size = n: nat | n > 0 witness 1
  type Slots = seq<Option<Call>>

  const MAX_SIZE: nat := 1024 * 1024
  const BATCH: nat := 100

  datatype Mode = DropMode | BlockMode

  datatype Config = Config(mode: Mode, dynamicResize: bool, threshold: nat, shards: Size, size: Size)

  /** Where a `write` call stands. `slow` tells `writeWithRetry` from the fast path;
      `w` and `r` are the loaded indices. */
  datatype CallPc =
    | LoadWrite(slow: bool)
    | LoadRead(slow: bool, w: nat)
    | CheckFull(slow: bool, w: nat, r: nat)
    | Drop(slow: bool)
    | Claim(slow: bool, w: nat, r: nat)
    | LockShard(slow: bool, w: nat, r: nat)
    | Store(slow: bool, w: nat, r: nat)
    | UnlockShard(slow: bool, w: nat, r: nat)
    | SetUtilization(slow: bool, w: nat, r: nat)
    | MaybeSpawn(w: nat, r: nat)
    | AwaitRead
    | ReleaseRead(accepted: bool)
    | Returned(accepted: bool)

  /** Where the worker's `flush` stands; `i` runs over the batch `r..end`. */
  datatype FlushPc =
    | Idle
    | FAwaitRead
    | FLoadRead
    | FLoadWrite(r: nat)
    | FLockShards(r: nat, end: nat, i: nat)
    | FTake(r: nat, end: nat, i: nat)
    | FPut(r: nat, end: nat, i: nat, entry: Call)
    | FClear(r: nat, end: nat, i: nat, entry: Call)
    | FUnlockShards(end: nat)
    | FStoreRead(end: nat)
    | FReleaseRead

  /** A `maybeResize` goroutine before it owns the resize lock. */
  datatype WaitPc = FirstCheck | AwaitLock

  /** The `maybeResize` that owns the writer side of the resize lock. While it is
      `Draining` it still waits for the readers inside to leave. */
  datatype ResizePc =
    | Draining
    | Recheck
    | RLoadRead
    | RLoadWrite(r: nat)
    | RLockShards(r: nat, w: nat, k: nat)
    | Copy(r: nat, w: nat, i: nat, grown: Slots)
    | RUnlockShards(grown: Slots, k: nat)
    | SetBuffer(grown: Slots)
    | SetSize(newSize: Size)
    | SetMask(newSize: Size)
    | RRelease

  datatype Resize = Free | Held(task: Task, pc: ResizePc)

  datatype Owner = ByCall(id: Call) | ByFlusher | ByResizer

  datatype Reader = FlushReader | CallReader(id: Call)

  datatype State = State(
    size: Size,
    mask: nat,
    buffer: Slots,
    readIndex: nat,
    writeIndex: nat,
    utilization: int,
    dropCount: nat,
    delivered: seq<Call>,                 // entries the sink took, in order
    claims: seq<Call>,                    // history: claims[i] won index i
    shards: seq<Option<Owner>>,
    readers: set<Reader>,
    calls: map<Call, CallPc>,
    flusher: FlushPc,
    waiting: map<Task, WaitPc>,
    resize: Resize)

  datatype Action =
    | NewCall(id: Call)
    | StepCall(id: Call, giveUp: bool, spawn: Task)
    | StepFlush(sinkOk: bool, shard: nat)
    | StepWaiting(task: Task)
    | StepResize

  function Init(c: Config): State
  {
    State(c.size, c.size - 1, seq(c.size, _ => None), 0, 0, 0, 0, [], [],
          seq(c.shards, _ => None), {}, map[], Idle, map[], Free)
  }

  function Slot(i: nat, mask: nat): (k: nat)
    ensures k <= mask
  {
    BitAnd(i, mask)
  }

  function Usage(w: nat, r: nat): int
  {
    w + 1 - r
  }

  function Percent(w: nat, r: nat, size: Size): int
  {
    Usage(w, r) * 100 / size
  }

  // ---- write -------------------------------------------------------------

  predicate CallEnabled(c: Config, s: State, id: Call, spawn: Task)
  {
    id in s.calls &&
    match s.calls[id]
    case AwaitRead => s.resize.Free?
    case LockShard(_, w, _) => w % c.shards < |s.shards| && s.shards[w % c.shards].None?
    case Store(_, w, _) => Slot(w, s.mask) < |s.buffer|
    case UnlockShard(_, w, _) => w % c.shards < |s.shards|
    case MaybeSpawn(w, r) =>
      SpawnsResize(c, s, w, r) ==> spawn !in s.waiting && !(s.resize.Held? && s.resize.task == spawn)
    case Returned(_) => false
    case _ => true
  }

  predicate SpawnsResize(c: Config, s: State, w: nat, r: nat)
  {
    c.dynamicResize && Percent(w, r, s.size) > c.threshold
  }

  /** The pc after the full-buffer check. */
  function AfterCheck(c: Config, size: Size, slow: bool, w: nat, r: nat, giveUp: bool): CallPc
  {
    if Usage(w, r) <= size then Claim(slow, w, r)
    else if c.mode == DropMode then Drop(slow)
    else if !slow then AwaitRead
    else if giveUp then Drop(true)
    else LoadWrite(true)
  }

  function CallNext(c: Config, s: State, id: Call, giveUp: bool, spawn: Task): State
    requires CallEnabled(c, s, id, spawn)
  {
    match s.calls[id]
    case LoadWrite(slow) => s.(calls := s.calls[id := LoadRead(slow, s.writeIndex)])
    case LoadRead(slow, w) => s.(calls := s.calls[id := CheckFull(slow, w, s.readIndex)])
    case CheckFull(slow, w, r) => s.(calls := s.calls[id := AfterCheck(c, s.size, slow, w, r, giveUp)])
    case Drop(slow) =>
      s.(dropCount := s.dropCount + 1,
         calls := s.calls[id := if slow then ReleaseRead(false) else Returned(false)])
    case Claim(slow, w, r) =>
      if s.writeIndex == w then
        s.(writeIndex := w + 1, claims := s.claims + [id], calls := s.calls[id := LockShard(slow, w, r)])
      else
        s.(calls := s.calls[id := if slow then LoadWrite(true) else AwaitRead])
    case LockShard(slow, w, r) =>
      s.(shards := s.shards[w % c.shards := Some(ByCall(id))], calls := s.calls[id := Store(slow, w, r)])
    case Store(slow, w, r) =>
      s.(buffer := s.buffer[Slot(w, s.mask) := Some(id)], calls := s.calls[id := UnlockShard(slow, w, r)])
    case UnlockShard(slow, w, r) =>
      s.(shards := s.shards[w % c.shards := None], calls := s.calls[id := SetUtilization(slow, w, r)])
    case SetUtilization(slow, w, r) =>
      s.(utilization := Percent(w, r, s.size),
         calls := s.calls[id := if slow then ReleaseRead(true) else MaybeSpawn(w, r)])
    case MaybeSpawn(w, r) =>
      s.(waiting := if SpawnsResize(c, s, w, r) then s.waiting[spawn := FirstCheck] else s.waiting,
         calls := s.calls[id := Returned(true)])
    case AwaitRead =>
      s.(readers := s.readers + {CallReader(id)}, calls := s.calls[id := LoadWrite(true)])
    case ReleaseRead(accepted) =>
      s.(readers := s.readers - {CallReader(id)}, calls := s.calls[id := Returned(accepted)])
    case Returned(_) => s
  }

  // ---- flush -------------------------------------------------------------

  predicate FlushEnabled(c: Config, s: State, shard: nat)
  {
    match s.flusher
    case FAwaitRead => s.resize.Free?
    case FLockShards(_, end, i) =>
      i < end ==>
        i % c.shards < |s.shards| &&
        (s.shards[i % c.shards].None? || s.shards[i % c.shards] == Some(ByFlusher))
    case FTake(_, end, i) => i < end ==> Slot(i, s.mask) < |s.buffer|
    case FClear(_, _, i, _) => Slot(i, s.mask) < |s.buffer|
    case FUnlockShards(_) =>
      Some(ByFlusher) in s.shards ==> shard < |s.shards| && s.shards[shard] == Some(ByFlusher)
    case _ => true
  }

  function FlushNext(c: Config, s: State, sinkOk: bool, shard: nat): State
    requires FlushEnabled(c, s, shard)
  {
    match s.flusher
    case Idle => s.(flusher := FAwaitRead)
    case FAwaitRead => s.(readers := s.readers + {FlushReader}, flusher := FLoadRead)
    case FLoadRead => s.(flusher := FLoadWrite(s.readIndex))
    case FLoadWrite(r) =>
      if r >= s.writeIndex then s.(flusher := FReleaseRead)
      else
        var batch := if s.writeIndex - r > BATCH then BATCH else s.writeIndex - r;
        s.(flusher := FLockShards(r, r + batch, r))
    case FLockShards(r, end, i) =>
      if i < end then
        s.(shards := s.shards[i % c.shards := Some(ByFlusher)], flusher := FLockShards(r, end, i + 1))
      else
        s.(flusher := FTake(r, end, r))
    case FTake(r, end, i) =>
      if i >= end then s.(flusher := FUnlockShards(end))
      else if s.buffer[Slot(i, s.mask)].None? then s.(flusher := FTake(r, end, i + 1))
      else s.(flusher := FPut(r, end, i, s.buffer[Slot(i, s.mask)].value))
    case FPut(r, end, i, entry) =>
      if sinkOk then s.(delivered := s.delivered + [entry], flusher := FClear(r, end, i, entry))
      else s.(flusher := FUnlockShards(end))
    case FClear(r, end, i, _) =>
      s.(buffer := s.buffer[Slot(i, s.mask) := None], flusher := FTake(r, end, i + 1))
    case FUnlockShards(end) =>
      if Some(ByFlusher) in s.shards then s.(shards := s.shards[shard := None])
      else s.(flusher := FStoreRead(end))
    case FStoreRead(end) => s.(readIndex := end, flusher := FReleaseRead)
    case FReleaseRead => s.(readers := s.readers - {FlushReader}, flusher := Idle)
  }

  // ---- maybeResize -------------------------------------------------------

  predicate WaitingEnabled(s: State, task: Task)
  {
    task in s.waiting && (s.waiting[task] == AwaitLock ==> s.resize.Free?)
  }

  function WaitingNext(c: Config, s: State, task: Task): State
    requires WaitingEnabled(s, task)
  {
    match s.waiting[task]
    case FirstCheck =>
      if s.utilization <= c.threshold then s.(waiting := s.waiting - {task})
      else s.(waiting := s.waiting[task := AwaitLock])
    case AwaitLock => s.(waiting := s.waiting - {task}, resize := Held(task, Draining))
  }

  predicate ResizeEnabled(c: Config, s: State)
  {
    s.resize.Held? &&
    match s.resize.pc
    case Draining => s.readers == {}
    case RLockShards(_, _, k) => k < c.shards ==> k < |s.shards| && s.shards[k].None?
    case Copy(r, w, i, grown) => i < w ==> Slot(i, 2 * s.size - 1) < |grown| && Slot(i, s.mask) < |s.buffer|
    case RUnlockShards(_, k) => k < c.shards ==> k < |s.shards|
    case _ => true
  }

  function ResizeNext(c: Config, s: State): State
    requires ResizeEnabled(c, s)
  {
    var t := s.resize.task;
    match s.resize.pc
    case Draining => s.(resize := Held(t, Recheck))
    case Recheck =>
      if s.utilization <= c.threshold || 2 * s.size > MAX_SIZE then s.(resize := Held(t, RRelease))
      else s.(resize := Held(t, RLoadRead))
    case RLoadRead => s.(resize := Held(t, RLoadWrite(s.readIndex)))
    case RLoadWrite(r) => s.(resize := Held(t, RLockShards(r, s.writeIndex, 0)))
    case RLockShards(r, w, k) =>
      if k < c.shards then
        s.(shards := s.shards[k := Some(ByResizer)], resize := Held(t, RLockShards(r, w, k + 1)))
      else
        s.(resize := Held(t, Copy(r, w, r, seq(2 * s.size, _ => None))))
    case Copy(r, w, i, grown) =>
      if i < w then
        s.(resize := Held(t, Copy(r, w, i + 1, grown[Slot(i, 2 * s.size - 1) := s.buffer[Slot(i, s.mask)]])))
      else
        s.(resize := Held(t, RUnlockShards(grown, 0)))
    case RUnlockShards(grown, k) =>
      if k < c.shards then
        s.(shards := s.shards[k := None], resize := Held(t, RUnlockShards(grown, k + 1)))
      else
        s.(resize := Held(t, SetBuffer(grown)))
    case SetBuffer(grown) => s.(buffer := grown, resize := Held(t, SetSize(2 * s.size)))
    case SetSize(n) => s.(size := n, resize := Held(t, SetMask(n)))
    case SetMask(n) => s.(mask := n - 1, resize := Held(t, RRelease))
    case RRelease => s.(resize := Free)
  }

  // ---- runs --------------------------------------------------------------

  predicate Enabled(c: Config, s: State, a: Action)
  {
    match a
    case NewCall(id) => id !in s.calls
    case StepCall(id, _, spawn) => CallEnabled(c, s, id, spawn)
    case StepFlush(_, shard) => FlushEnabled(c, s, shard)
    case StepWaiting(task) => WaitingEnabled(s, task)
    case StepResize => ResizeEnabled(c, s)
  }

  function Next(c: Config, s: State, a: Action): State
    requires Enabled(c, s, a)
  {
    match a
    case NewCall(id) => s.(calls := s.calls[id := LoadWrite(false)])
    case StepCall(id, giveUp, spawn) => CallNext(c, s, id, giveUp, spawn)
    case StepFlush(sinkOk, shard) => FlushNext(c, s, sinkOk, shard)
    case StepWaiting(task) => WaitingNext(c, s, task)
    case StepResize => ResizeNext(c, s)
  }

  /** Whether `run` can be taken, step after step, from s. */
  predicate Possible(c: Config, s: State, run: seq<Action>)
    decreases |run|
  {
    run == [] || (Enabled(c, s, run[0]) && Possible(c, Next(c, s, run[0]), run[1..]))
  }

  function After(c: Config, s: State, run: seq<Action>): State
    requires Possible(c, s, run)
    decreases |run|
  {
    if run == [] then s else After(c, Next(c, s, run[0]), run[1..])
  }
}
