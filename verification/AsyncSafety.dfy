/** What every interleaving of the ring buffer's steps keeps: index safety, lock
    ownership, and at-most-once delivery. */
module AsyncSafety {
  import opened Bits
  import opened Wrappers
  import opened AsyncProtocol

  // ---- shape of the ring -------------------------------------------------

  ghost predicate Shape(c: Config, s: State)
  {
    && |s.shards| == c.shards
    && IsPow2(s.size) && IsPow2(s.mask + 1)
    && match s.resize
       case Held(_, SetSize(n)) => |s.buffer| == n == 2 * s.size && s.mask + 1 == s.size
       case Held(_, SetMask(n)) => |s.buffer| == n == s.size && s.size == 2 * (s.mask + 1)
       case _ => |s.buffer| == s.size && s.mask + 1 == s.size
  }

  /** The copy a resize is building, empty outside of it. */
  function Grown(s: State): Slots
  {
    match s.resize
    case Held(_, Copy(_, _, _, grown)) => grown
    case Held(_, RUnlockShards(grown, _)) => grown
    case Held(_, SetBuffer(grown)) => grown
    case _ => []
  }

  ghost predicate GrownShape(s: State)
  {
    match s.resize
    case Held(_, Copy(_, _, _, grown)) => |grown| == 2 * s.size
    case Held(_, RUnlockShards(grown, _)) => |grown| == 2 * s.size
    case Held(_, SetBuffer(grown)) => |grown| == 2 * s.size
    case _ => true
  }

  // ---- indices -----------------------------------------------------------

  ghost predicate Indices(s: State)
  {
    && s.readIndex <= s.writeIndex <= s.readIndex + s.size
    && 0 <= s.utilization <= 100
    && |s.claims| == s.writeIndex
  }

  /** What a call's loaded indices still tell it, however stale they are. */
  ghost predicate CallOk(s: State, id: Call, pc: CallPc)
  {
    match pc
    case LoadRead(_, w) => w <= s.writeIndex
    case CheckFull(_, w, r) => w <= s.writeIndex && r <= s.readIndex
    case Claim(_, w, r) => w <= s.writeIndex && r <= s.readIndex && Usage(w, r) <= s.size
    case LockShard(_, w, r) => Owns(s, id, w, r)
    case Store(_, w, r) => Owns(s, id, w, r)
    case UnlockShard(_, w, r) => Owns(s, id, w, r)
    case SetUtilization(_, w, r) => Owns(s, id, w, r)
    case MaybeSpawn(w, r) => Owns(s, id, w, r)
    case _ => true
  }

  ghost predicate Owns(s: State, id: Call, w: nat, r: nat)
  {
    w < |s.claims| && s.claims[w] == id && r <= w && Usage(w, r) <= s.size
  }

  ghost predicate CallsOk(s: State)
  {
    forall id | id in s.calls :: CallOk(s, id, s.calls[id])
  }

  /** A batch under way starts at the read index and is not empty. */
  ghost predicate FlushOk(s: State)
  {
    match s.flusher
    case FLoadWrite(r) => r == s.readIndex
    case FLockShards(r, end, i) => r == s.readIndex <= i <= end <= s.writeIndex && r < end
    case FTake(r, end, i) => r == s.readIndex <= i <= end <= s.writeIndex && r < end
    case FPut(r, end, i, _) => r == s.readIndex <= i < end <= s.writeIndex
    case FClear(r, end, i, _) => r == s.readIndex <= i < end <= s.writeIndex
    case FUnlockShards(end) => s.readIndex < end <= s.writeIndex
    case FStoreRead(end) => s.readIndex < end <= s.writeIndex
    case _ => true
  }

  ghost predicate ResizeOk(c: Config, s: State)
  {
    match s.resize
    case Held(_, RLoadWrite(r)) => r == s.readIndex
    case Held(_, RLockShards(r, w, k)) => r == s.readIndex <= w <= s.writeIndex && k <= c.shards
    case Held(_, Copy(r, w, i, _)) => r == s.readIndex <= i && r <= w <= s.writeIndex && i <= w
    case Held(_, RUnlockShards(_, k)) => k <= c.shards
    case _ => true
  }

  // ---- the resize lock ---------------------------------------------------

  predicate CallReads(pc: CallPc)
  {
    match pc
    case LoadWrite(slow) => slow
    case LoadRead(slow, _) => slow
    case CheckFull(slow, _, _) => slow
    case Drop(slow) => slow
    case Claim(slow, _, _) => slow
    case LockShard(slow, _, _) => slow
    case Store(slow, _, _) => slow
    case UnlockShard(slow, _, _) => slow
    case SetUtilization(slow, _, _) => slow
    case ReleaseRead(_) => true
    case _ => false
  }

  predicate FlushReads(pc: FlushPc)
  {
    !pc.Idle? && !pc.FAwaitRead?
  }

  /** The reader set is exactly who is inside, and a resize past `Draining` is alone. */
  ghost predicate ReadersOk(s: State)
  {
    && (FlushReader in s.readers <==> FlushReads(s.flusher))
    && (forall id :: CallReader(id) in s.readers <==> id in s.calls && CallReads(s.calls[id]))
    && (s.resize.Held? && s.resize.pc != Draining ==> s.readers == {})
  }

  // ---- the shard locks ---------------------------------------------------

  predicate CallHolds(c: Config, pc: CallPc, k: nat)
  {
    match pc
    case Store(_, w, _) => w % c.shards == k
    case UnlockShard(_, w, _) => w % c.shards == k
    case _ => false
  }

  predicate FlushHolds(pc: FlushPc)
  {
    pc.FLockShards? || pc.FTake? || pc.FPut? || pc.FClear? || pc.FUnlockShards?
  }

  predicate ResizeHolds(s: State, k: nat)
  {
    match s.resize
    case Held(_, RLockShards(_, _, m)) => k < m
    case Held(_, Copy(_, _, _, _)) => true
    case Held(_, RUnlockShards(_, m)) => m <= k
    case _ => false
  }

  ghost predicate ShardsOk(c: Config, s: State)
  {
    && |s.shards| == c.shards
    && (forall k | 0 <= k < |s.shards| && s.shards[k].Some? && s.shards[k].value.ByCall? ::
          s.shards[k].value.id in s.calls && CallHolds(c, s.calls[s.shards[k].value.id], k))
    && (forall k | 0 <= k < |s.shards| :: s.shards[k] == Some(ByFlusher) ==> FlushHolds(s.flusher))
    && (forall k | 0 <= k < |s.shards| :: s.shards[k] == Some(ByResizer) <==> ResizeHolds(s, k))
    && (forall id, k | id in s.calls && 0 <= k < |s.shards| ::
          CallHolds(c, s.calls[id], k) ==> s.shards[k] == Some(ByCall(id)))
  }

  // ---- entries -----------------------------------------------------------

  predicate Published(pc: CallPc)
  {
    match pc
    case UnlockShard(_, _, _) => true
    case SetUtilization(_, _, _) => true
    case MaybeSpawn(_, _) => true
    case ReleaseRead(accepted) => accepted
    case Returned(accepted) => accepted
    case _ => false
  }

  predicate Claimed(pc: CallPc)
  {
    pc.LockShard? || pc.Store? || Published(pc)
  }

  predicate IsPublished(s: State, id: Call)
  {
    id in s.calls && Published(s.calls[id])
  }

  ghost predicate Distinct(b: Slots)
  {
    forall i, j | 0 <= i < j < |b| && b[i].Some? && b[j].Some? :: b[i] != b[j]
  }

  ghost predicate NoRepeats(ids: seq<Call>)
  {
    forall i, j | 0 <= i < j < |ids| :: ids[i] != ids[j]
  }

  /** Each index was claimed by exactly one call and each accepted call claimed one. */
  ghost predicate ClaimsOk(s: State)
  {
    && NoRepeats(s.claims)
    && (forall i | 0 <= i < |s.claims| :: s.claims[i] in s.calls && Claimed(s.calls[s.claims[i]]))
    && (forall id | id in s.calls && Claimed(s.calls[id]) :: id in s.claims)
  }

  ghost predicate SlotsFresh(s: State, b: Slots)
  {
    forall j | 0 <= j < |b| && b[j].Some? :: IsPublished(s, b[j].value)
  }

  /** An entry is in the ring or delivered, not both, except for the slot the
      flusher has just handed to the sink and is about to clear. */
  ghost predicate RingOk(s: State)
  {
    && Distinct(s.buffer) && SlotsFresh(s, s.buffer)
    && (forall j | 0 <= j < |s.buffer| && s.buffer[j].Some? && s.buffer[j].value in s.delivered ::
          s.flusher.FClear? && j == Slot(s.flusher.i, s.mask))
  }

  ghost predicate DeliveredOk(s: State)
  {
    && NoRepeats(s.delivered)
    && (forall i | 0 <= i < |s.delivered| :: IsPublished(s, s.delivered[i]))
  }

  /** The entry in the flusher's hand is undelivered and in no other slot. */
  ghost predicate HandOk(s: State)
  {
    s.flusher.FPut? ==>
      && IsPublished(s, s.flusher.entry) && s.flusher.entry !in s.delivered
      && forall j | 0 <= j < |s.buffer| :: s.buffer[j] == Some(s.flusher.entry) ==> j == Slot(s.flusher.i, s.mask)
  }

  ghost predicate GrownOk(s: State)
  {
    && Distinct(Grown(s)) && SlotsFresh(s, Grown(s))
    && (forall j | 0 <= j < |Grown(s)| && Grown(s)[j].Some? :: Grown(s)[j].value !in s.delivered)
  }

  /** While copying, every copied entry still sits at the slot it came from. */
  ghost predicate CopyOk(s: State)
  {
    s.resize.Held? && s.resize.pc.Copy? ==>
      var r, i, grown := s.resize.pc.r, s.resize.pc.i, s.resize.pc.grown;
      forall j | 0 <= j < |grown| && grown[j].Some? :: CopiedFrom(s, r, i, j, grown[j])
  }

  ghost predicate CopiedFrom(s: State, r: nat, i: nat, j: nat, entry: Option<Call>)
  {
    exists t: nat :: r <= t < i && Slot(t, 2 * s.size - 1) == j && Slot(t, s.mask) < |s.buffer|
                     && s.buffer[Slot(t, s.mask)] == entry
  }

  /** Indices, program counters and locks. */
  ghost predicate ControlInv(c: Config, s: State)
  {
    && Shape(c, s) && GrownShape(s) && Indices(s) && CallsOk(s) && FlushOk(s) && ResizeOk(c, s)
    && ReadersOk(s) && ShardsOk(c, s)
  }

  /** Where entries are. */
  ghost predicate EntryInv(s: State)
  {
    ClaimsOk(s) && RingOk(s) && DeliveredOk(s) && HandOk(s) && GrownOk(s) && CopyOk(s)
  }

  ghost predicate Inv(c: Config, s: State)
  {
    ControlInv(c, s) && EntryInv(s)
  }
}
