/** The asynchronous ring as a heap object, its operations taken one at a time: an
    array indexed through a mask, with indices that only grow. Each operation is
    proved to do to the abstract queue what AsyncQueue says. */
module AsyncBuffer {
  import opened Bits
  import opened Bytes
  import opened Protocol = AsyncProtocol
  import Q = AsyncQueue

  /** Slot k of the ring holds a private copy of pending entry n. */
  ghost predicate Stored(buffer: array<array?<Byte>>, k: nat, repr: set<object>, pending: seq<Text>, n: nat)
    reads buffer, repr
  {
    k < buffer.Length && n < |pending| && buffer[k] != null && buffer[k] in repr && buffer[k][..] == pending[n]
  }

  /** Within a window no wider than the ring, index i shares its slot with no other. */
  lemma SlotApart(lo: nat, i: nat, hi: nat, size: Size, mask: nat)
    requires IsPow2(size) && mask == size - 1 && lo <= i < hi <= lo + size
    ensures forall j: nat | lo <= j < hi && j != i :: Slot(j, mask) != Slot(i, mask)
  {
    forall j: nat | lo <= j < hi && j != i ensures Slot(j, mask) != Slot(i, mask) {
      if j < i {
        SlotInjective(j, i, size);
      } else {
        SlotInjective(i, j, size);
      }
    }
  }

  /** make and copy: a private copy of the caller's slice. */
  method CopyEntry(p: array<Byte>) returns (entry: array<Byte>)
    ensures fresh(entry) && entry[..] == p[..]
  {
    entry := new Byte[p.Length];
    forall i | 0 <= i < p.Length {
      entry[i] := p[i];
    }
  }

  class AsyncBuffer {
    var size: nat
    var mask: int
    var readIndex: nat
    var writeIndex: nat
    var buffer: array<array?<Byte>>
    var writer: seq<Text>              // what the sink has taken, in order
    var backpressureMode: Mode
    var dynamicResize: bool
    var resizeThreshold: nat
    var utilization: int
    var dropCount: nat

    ghost var queue: Q.Queue
    ghost var Repr: set<object>

    ghost predicate Valid()
      reads this, Repr
      ensures Valid() ==> this in Repr
    {
      && this in Repr && buffer in Repr
      && (size == 0 || IsPow2(size)) && mask == size - 1 && buffer.Length == size
      && readIndex <= writeIndex <= readIndex + size
      && queue.capacity == size && queue.drops == dropCount && queue.utilization == utilization
      && writer == Q.Delivered(queue)
      && |queue.settled| == readIndex && |queue.pending| == writeIndex - readIndex
      && (forall i: nat | readIndex <= i < writeIndex ::
            Stored(buffer, Slot(i, mask), Repr, queue.pending, i - readIndex))
    }

    ghost function Options(): Q.Options
      reads this
    {
      Q.Options(backpressureMode, resizeThreshold)
    }

    /** newAsyncBuffer. A size that is not positive gives a ring without slots; one below
        -2^31 may give a length that cannot be allocated. */
    constructor (requested: int, mode: Mode, dynamicResize: bool, threshold: nat)
      requires -TWO_31 < requested
      requires requested > 0 && !IsPow2(requested) ==> NoZeroRun(requested - 1, 32)
      ensures Valid() && fresh(Repr)
      ensures requested > 0 ==> LeastPow2AtLeast(size, requested)
      ensures requested <= 0 ==> size == 0
      ensures queue == Q.Empty(size) && Options() == Q.Options(mode, threshold) && this.dynamicResize == dynamicResize
    {
      var n := requested;
      if requested > 0 {
        PowerTest(requested);
      }
      if requested <= 0 || BitAnd(requested, requested - 1) != 0 {
        n := RoundUpPowerOfTwo(requested);
        if requested > 0 {
          RoundUpExact(requested);
        }
      } else {
        LeastFromBound(requested, requested);
      }
      size := n;
      mask := n - 1;
      readIndex, writeIndex := 0, 0;
      buffer := new array?<Byte>[n](_ => null);
      writer := [];
      backpressureMode, this.dynamicResize, resizeThreshold := mode, dynamicResize, threshold;
      utilization, dropCount := 0, 0;
      queue := Q.Empty(n);
      new;
      Repr := {this, buffer};
    }

    /** What the operations below leave as it is. */
    twostate predicate SameSettings()
      reads this
    {
      Options() == old(Options()) && dynamicResize == old(dynamicResize)
    }

    /** Stores a copy of p in the slot of the write index, which no pending entry has. */
    method Place(p: array<Byte>) returns (entry: array<Byte>)
      requires Valid() && Q.HasRoom(queue)
      modifies buffer
      ensures fresh(entry) && entry[..] == p[..] && old(p[..]) == p[..]
      ensures Slot(writeIndex, mask) < buffer.Length && buffer[Slot(writeIndex, mask)] == entry
      ensures forall j: nat | readIndex <= j < writeIndex ::
                Stored(buffer, Slot(j, mask), Repr, queue.pending, j - readIndex)
    {
      entry := CopyEntry(p);
      SlotApart(readIndex, writeIndex, writeIndex + 1, size, mask);
      buffer[Slot(writeIndex, mask)] := entry;
    }

    /** Claims the next index and stores a copy of p there. */
    method Push(p: array<Byte>)
      requires Valid() && Q.HasRoom(queue)
      modifies this, buffer
      ensures Valid() && fresh(Repr - old(Repr)) && buffer == old(buffer) && SameSettings()
      ensures queue == Q.Push(old(queue), old(p[..]))
      ensures utilization == (old(|queue.pending|) + 1) * 100 / old(size)
    {
      var entry := Place(p);
      var used := writeIndex + 1 - readIndex;
      writeIndex := writeIndex + 1;
      utilization := used * 100 / size;
      Repr := Repr + {entry};
      queue := Q.Push(queue, p[..]);
    }

    /** write, fast path and retry path. `wakes` says what happens during each of the
        at most 100 sleeps the caller gets before it gives up, `grow` whether the call
        starts a maybeResize: only the fast path does, when it leaves the ring fuller
        than the threshold. */
    method Write(p: array<Byte>, wakes: seq<Q.Wake>) returns (ok: bool, grow: bool)
      requires Valid() && p !in Repr && |wakes| <= 100
      modifies this, buffer
      ensures Valid() && fresh(Repr - old(Repr)) && buffer == old(buffer) && SameSettings()
      ensures (queue, ok) == Q.Retrying(old(Options()), old(queue), p[..], wakes)
      ensures grow <==> old(dynamicResize) && old(Q.HasRoom(queue)) && utilization > old(resizeThreshold)
    {
      var usage := writeIndex + 1 - readIndex;
      if usage <= size {
        Push(p);
        grow := dynamicResize && usage * 100 / size > resizeThreshold;
        return true, grow;
      } else if backpressureMode == DropMode {
        Refuse();
        return false, false;
      }
      ok := WriteWithRetry(p, wakes);
      grow := false;
    }

    method Refuse()
      requires Valid()
      modifies this
      ensures Valid() && Repr == old(Repr) && buffer == old(buffer) && SameSettings()
      ensures queue == Q.Dropping(old(queue))
    {
      dropCount := dropCount + 1;
      queue := Q.Dropping(queue);
    }

    /** Another writer's last look. */
    method Look(entry: Text)
      requires Valid()
      modifies this, buffer
      ensures Valid() && fresh(Repr - old(Repr)) && buffer == old(buffer) && SameSettings()
      ensures queue == Q.Looking(old(queue), entry)
    {
      var usage := writeIndex + 1 - readIndex;
      if usage <= size {
        var p := new Byte[|entry|](i requires 0 <= i < |entry| => entry[i]);
        assert p[..] == entry;
        Push(p);
      } else {
        Refuse();
      }
    }

    /** What happens during one sleep. */
    method Sleep(wake: Q.Wake)
      requires Valid()
      modifies this, buffer
      ensures Valid() && fresh(Repr - old(Repr)) && buffer == old(buffer) && SameSettings()
      ensures queue == Q.Happenings(old(queue), wake)
    {
      assert wake[0..] == wake;
      for i := 0 to |wake|
        invariant Valid() && fresh(Repr - old(Repr)) && buffer == old(buffer) && SameSettings()
        invariant Q.Happenings(queue, wake[i..]) == Q.Happenings(old(queue), wake)
      {
        assert wake[i..][1..] == wake[i + 1..];
        match wake[i] {
          case Flushed(accepts) => Flush(accepts);
          case Looked(entry) => Look(entry);
        }
      }
    }

    method WriteWithRetry(p: array<Byte>, wakes: seq<Q.Wake>) returns (ok: bool)
      requires Valid() && p !in Repr && |wakes| <= 100
      modifies this, buffer
      ensures Valid() && fresh(Repr - old(Repr)) && buffer == old(buffer) && SameSettings()
      ensures (queue, ok) == Q.Retrying(old(Options()), old(queue), p[..], wakes)
    {
      var maxRetries := 100;
      var retries := 0;
      while true
        invariant Valid() && fresh(Repr - old(Repr)) && buffer == old(buffer) && SameSettings()
        invariant 0 <= retries <= |wakes|
        invariant Q.Retrying(old(Options()), old(queue), p[..], wakes)
                  == Q.Retrying(old(Options()), queue, p[..], wakes[retries..])
        decreases |wakes| - retries
      {
        var usage := writeIndex + 1 - readIndex;
        if usage > size {
          if backpressureMode == DropMode {
            Refuse();
            return false;
          }
          retries := retries + 1;
          if retries > maxRetries || retries > |wakes| {
            Refuse();
            return false;
          }
          assert wakes[retries - 1..][1..] == wakes[retries..];
          Sleep(wakes[retries - 1]);
        } else {
          Push(p);
          return true;
        }
      }
    }

    /** flush. The sink takes the first `accepts` entries it is offered and fails on
        the next one. */
    method Flush(accepts: nat)
      requires Valid()
      modifies this, buffer
      ensures Valid() && Repr == old(Repr) && buffer == old(buffer) && SameSettings()
      ensures queue == Q.Flushing(old(queue), accepts)
    {
      if readIndex >= writeIndex {
        assert Q.Flushing(queue, accepts) == queue;
        return;
      }
      var batchSize := writeIndex - readIndex;
      if batchSize > 100 {
        batchSize := 100;
      }
      var endIndex := readIndex + batchSize;
      DeliverBatch(endIndex, accepts);
      SettleBatch(endIndex, accepts);
    }

    /** The read index moves past the batch, whatever became of it. */
    method SettleBatch(endIndex: nat, accepts: nat)
      requires this in Repr && buffer in Repr
      requires (size == 0 || IsPow2(size)) && mask == size - 1 && buffer.Length == size
      requires readIndex <= endIndex <= writeIndex <= readIndex + size
      requires queue.capacity == size && queue.drops == dropCount && queue.utilization == utilization
      requires |queue.settled| == readIndex && |queue.pending| == writeIndex - readIndex
      requires endIndex == readIndex + Q.Batch(queue)
      requires writer == Q.Delivered(queue) + queue.pending[..Q.Taken(queue, accepts)]
      requires forall j: nat | endIndex <= j < writeIndex ::
                 Stored(buffer, Slot(j, mask), Repr, queue.pending, j - readIndex)
      modifies `queue, `readIndex
      ensures Valid() && queue == Q.Flushing(old(queue), accepts)
    {
      Q.FlushDeliversPrefix(queue, accepts);
      ghost var was := queue.pending;
      queue := Q.Flushing(queue, accepts);
      assert queue.pending == was[endIndex - readIndex..];
      readIndex := endIndex;
    }

    /** The batch loop of flush: it stops at the first entry the sink refuses. */
    method DeliverBatch(endIndex: nat, accepts: nat)
      requires Valid() && readIndex <= endIndex <= writeIndex
      modifies `writer, buffer
      ensures writer == old(writer) + queue.pending[..Q.Least(accepts, endIndex - readIndex)]
      ensures forall j: nat | endIndex <= j < writeIndex ::
                Stored(buffer, Slot(j, mask), Repr, queue.pending, j - readIndex)
    {
      var i := readIndex;
      while i < endIndex
        invariant readIndex <= i <= endIndex && i - readIndex <= accepts
        invariant writer == old(writer) + queue.pending[..i - readIndex]
        invariant forall j: nat | i <= j < writeIndex ::
                    Stored(buffer, Slot(j, mask), Repr, queue.pending, j - readIndex)
      {
        var entry := buffer[Slot(i, mask)];
        assert Stored(buffer, Slot(i, mask), Repr, queue.pending, i - readIndex);
        if entry != null {
          if i - readIndex == accepts {
            break;
          }
          writer := writer + [entry[..]];
          SlotApart(readIndex, i, writeIndex, size, mask);
          buffer[Slot(i, mask)] := null;
        }
        i := i + 1;
      }
    }

    /** maybeResize */
    method MaybeResize()
      requires Valid()
      modifies this
      ensures Valid() && fresh(Repr - old(Repr)) && SameSettings()
      ensures queue == Q.Growing(old(Options()), old(queue))
      ensures old(size) > 0 ==>
                (size != old(size) <==> old(utilization) > old(resizeThreshold) && 2 * old(size) <= 1048576)
      ensures size == old(size) || size == 2 * old(size)
      ensures Q.Stream(queue) == old(Q.Stream(queue)) && utilization == old(utilization)
    {
      if utilization <= resizeThreshold {
        return;
      }
      var newSize := size * 2;
      if newSize > 1024 * 1024 {
        return;
      }
      var newMask := newSize - 1;
      var newBuffer := CopyWindow(newSize, newMask);
      Install(newBuffer, newSize, newMask);
    }

    /** The three stores that put the new buffer in place. */
    method Install(newBuffer: array<array?<Byte>>, newSize: nat, newMask: int)
      requires Valid() && newSize == 2 * size && newMask == newSize - 1 && newBuffer.Length == newSize
      requires forall j: nat | readIndex <= j < writeIndex ::
                 Stored(newBuffer, Slot(j, newMask), Repr, queue.pending, j - readIndex)
      modifies this
      ensures Valid() && Repr == old(Repr) + {newBuffer} && SameSettings()
      ensures queue == old(queue).(capacity := newSize)
    {
      buffer := newBuffer;
      size := newSize;
      mask := newMask;
      Repr := Repr + {newBuffer};
      queue := queue.(capacity := newSize);
    }

    /** The copy loop of maybeResize: every pending entry moves to its slot under the
        new mask. */
    method CopyWindow(newSize: nat, newMask: int) returns (newBuffer: array<array?<Byte>>)
      requires Valid() && newSize == 2 * size && newMask == newSize - 1
      ensures fresh(newBuffer) && newBuffer.Length == newSize
      ensures forall j: nat | readIndex <= j < writeIndex ::
                Stored(newBuffer, Slot(j, newMask), Repr, queue.pending, j - readIndex)
    {
      newBuffer := new array?<Byte>[newSize](_ => null);
      var i := readIndex;
      while i < writeIndex
        invariant readIndex <= i <= writeIndex
        invariant forall j: nat | readIndex <= j < i ::
                    Stored(newBuffer, Slot(j, newMask), Repr, queue.pending, j - readIndex)
      {
        assert Stored(buffer, Slot(i, mask), Repr, queue.pending, i - readIndex);
        SlotApart(readIndex, i, writeIndex, newSize, newMask);
        newBuffer[Slot(i, newMask)] := buffer[Slot(i, mask)];
        i := i + 1;
      }
    }

    /** close: the worker flushes once and stops. */
    method Close(accepts: nat)
      requires Valid()
      modifies this, buffer
      ensures Valid() && queue == Q.Flushing(old(queue), accepts)
      ensures accepts >= BATCH ==> (queue.pending == [] <==> |old(queue.pending)| <= BATCH)
    {
      Flush(accepts);
      Q.DrainBound(old(queue), 1);
      if accepts >= BATCH {
        assert queue == Q.Flushing(old(queue), BATCH);
      }
    }
  }

  /** The caller may overwrite its slice as soon as Write has returned: what is
      pending, and so what will be delivered, does not change. */
  method ReuseSlice(b: AsyncBuffer, p: array<Byte>, wakes: seq<Q.Wake>, junk: Byte) returns (ok: bool, grow: bool)
    requires b.Valid() && p !in b.Repr && |wakes| <= 100
    modifies b, b.buffer, p
    ensures b.Valid() && (b.queue, ok) == Q.Retrying(old(b.Options()), old(b.queue), old(p[..]), wakes)
    ensures forall i | 0 <= i < p.Length :: p[i] == junk
  {
    ok, grow := b.Write(p, wakes);
    for i := 0 to p.Length
      invariant b.Valid() && p !in b.Repr
      invariant (b.queue, ok) == Q.Retrying(old(b.Options()), old(b.queue), old(p[..]), wakes)
      invariant forall j | 0 <= j < i :: p[j] == junk
    {
      p[i] := junk;
    }
  }
}
