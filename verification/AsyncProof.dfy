/** Every step keeps the invariant, so every run does; the safety theorems follow. */
module AsyncProof {
  import opened Bits
  import opened Wrappers
  import opened AsyncProtocol
  import opened AsyncSafety

  // ---- arithmetic and frames ---------------------------------------------

  lemma DivBound(u: int, d: Size, q: int)
    requires 0 <= u <= d * q
    ensures 0 <= u / d <= q
  {
    var k := u / d;
    assert u == k * d + u % d;
    if k > q {
      MulStep(q, k, d);
    }
  }

  lemma PercentBound(w: nat, r: nat, size: Size)
    requires r <= w && Usage(w, r) <= size
    ensures 0 <= Percent(w, r, size) <= 100
  {
    var u := Usage(w, r) * 100;
    DivBound(u, size, 100);
  }

  /** The shared state only moves in ways a call's stale loads survive. */
  ghost predicate Grows(s: State, s': State)
  {
    && s.writeIndex <= s'.writeIndex && s.readIndex <= s'.readIndex
    && s.size <= s'.size && s.claims <= s'.claims
  }

  lemma CallOkFrame(s: State, s': State, id: Call, pc: CallPc)
    requires Grows(s, s') && CallOk(s, id, pc)
    ensures CallOk(s', id, pc)
  {
  }

  lemma OthersOk(s: State, s': State, me: Call)
    requires CallsOk(s) && Grows(s, s')
    requires me in s.calls && me in s'.calls && s'.calls == s.calls[me := s'.calls[me]]
    requires CallOk(s', me, s'.calls[me])
    ensures CallsOk(s')
  {
    forall id | id in s'.calls ensures CallOk(s', id, s'.calls[id]) {
      if id != me {
        CallOkFrame(s, s', id, s.calls[id]);
      }
    }
  }

  lemma SameCallsOk(s: State, s': State)
    requires CallsOk(s) && Grows(s, s') && s'.calls == s.calls
    ensures CallsOk(s')
  {
    forall id | id in s'.calls ensures CallOk(s', id, s'.calls[id]) {
      CallOkFrame(s, s', id, s.calls[id]);
    }
  }

  lemma CopyFrame(s: State, s': State)
    requires CopyOk(s) && s'.buffer == s.buffer && s'.mask == s.mask && s'.size == s.size && s'.resize == s.resize
    ensures CopyOk(s')
  {
    if s.resize.Held? && s.resize.pc.Copy? {
      var r, i, grown := s.resize.pc.r, s.resize.pc.i, s.resize.pc.grown;
      forall j | 0 <= j < |grown| && grown[j].Some? ensures CopiedFrom(s', r, i, j, grown[j]) {
        assert CopiedFrom(s, r, i, j, grown[j]);
      }
    }
  }

  // ---- steps of a write call -----------------------------------------------

  lemma CallKeepsShape(c: Config, s: State, id: Call, giveUp: bool, spawn: Task)
    requires Shape(c, s) && GrownShape(s) && CallEnabled(c, s, id, spawn)
    ensures Shape(c, CallNext(c, s, id, giveUp, spawn)) && GrownShape(CallNext(c, s, id, giveUp, spawn))
  {
  }

  lemma CallKeepsOtherPcs(c: Config, s: State, id: Call, giveUp: bool, spawn: Task)
    requires FlushOk(s) && ResizeOk(c, s) && CallEnabled(c, s, id, spawn)
    ensures FlushOk(CallNext(c, s, id, giveUp, spawn)) && ResizeOk(c, CallNext(c, s, id, giveUp, spawn))
  {
  }

  lemma CallKeepsReadersOk(c: Config, s: State, id: Call, giveUp: bool, spawn: Task)
    requires ReadersOk(s) && CallEnabled(c, s, id, spawn)
    ensures ReadersOk(CallNext(c, s, id, giveUp, spawn))
  {
  }

  lemma CallKeepsIndices(c: Config, s: State, id: Call, giveUp: bool, spawn: Task)
    requires Indices(s) && CallsOk(s) && CallEnabled(c, s, id, spawn)
    ensures Indices(CallNext(c, s, id, giveUp, spawn))
  {
    assert CallOk(s, id, s.calls[id]);
    if s.calls[id].SetUtilization? {
      PercentBound(s.calls[id].w, s.calls[id].r, s.size);
    }
  }

  lemma CallKeepsCallsOk(c: Config, s: State, id: Call, giveUp: bool, spawn: Task)
    requires Indices(s) && CallsOk(s) && CallEnabled(c, s, id, spawn)
    ensures CallsOk(CallNext(c, s, id, giveUp, spawn))
  {
    assert CallOk(s, id, s.calls[id]);
    OthersOk(s, CallNext(c, s, id, giveUp, spawn), id);
  }

  lemma LockKeepsShardsOk(c: Config, s: State, s': State, id: Call, k: nat)
    requires ShardsOk(c, s) && id in s.calls && k < |s.shards| && s.shards[k].None?
    requires s'.shards == s.shards[k := Some(ByCall(id))] && s'.flusher == s.flusher && s'.resize == s.resize
    requires id in s'.calls && s'.calls == s.calls[id := s'.calls[id]]
    requires forall j: nat | j < |s.shards| :: !CallHolds(c, s.calls[id], j)
    requires forall j: nat :: CallHolds(c, s'.calls[id], j) <==> j == k
    ensures ShardsOk(c, s')
  {
    assert forall j: nat :: ResizeHolds(s', j) == ResizeHolds(s, j);
  }

  lemma UnlockKeepsShardsOk(c: Config, s: State, s': State, id: Call, k: nat)
    requires ShardsOk(c, s) && id in s.calls && k < |s.shards|
    requires s'.shards == s.shards[k := None] && s'.flusher == s.flusher && s'.resize == s.resize
    requires id in s'.calls && s'.calls == s.calls[id := s'.calls[id]]
    requires forall j: nat :: CallHolds(c, s.calls[id], j) <==> j == k
    requires forall j: nat :: !CallHolds(c, s'.calls[id], j)
    ensures ShardsOk(c, s')
  {
    assert s.shards[k] == Some(ByCall(id));
    assert forall j: nat :: ResizeHolds(s', j) == ResizeHolds(s, j);
  }

  lemma CallKeepsShardsOk(c: Config, s: State, id: Call, giveUp: bool, spawn: Task)
    requires ShardsOk(c, s) && CallEnabled(c, s, id, spawn)
    ensures ShardsOk(c, CallNext(c, s, id, giveUp, spawn))
  {
    var s' := CallNext(c, s, id, giveUp, spawn);
    var pc := s.calls[id];
    if pc.LockShard? {
      LockKeepsShardsOk(c, s, s', id, pc.w % c.shards);
    } else if pc.UnlockShard? {
      UnlockKeepsShardsOk(c, s, s', id, pc.w % c.shards);
    } else {
      assert s'.shards == s.shards && s'.resize == s.resize;
      assert forall k: nat :: CallHolds(c, s'.calls[id], k) == CallHolds(c, pc, k);
      assert forall k: nat :: ResizeHolds(s', k) == ResizeHolds(s, k);
    }
  }

  lemma ClaimKeepsClaimsOk(s: State, s': State, id: Call)
    requires ClaimsOk(s) && id in s.calls && !Claimed(s.calls[id]) && id in s'.calls && Claimed(s'.calls[id])
    requires s'.calls == s.calls[id := s'.calls[id]] && s'.claims == s.claims + [id]
    ensures ClaimsOk(s')
  {
    assert id !in s.claims;
    assert s'.claims[|s.claims|] == id;
    forall x | x in s'.calls && Claimed(s'.calls[x]) ensures x in s'.claims {
      assert x != id ==> x in s.claims;
    }
  }

  lemma CallKeepsClaimsOk(c: Config, s: State, id: Call, giveUp: bool, spawn: Task)
    requires ClaimsOk(s) && CallEnabled(c, s, id, spawn)
    ensures ClaimsOk(CallNext(c, s, id, giveUp, spawn))
  {
    var s' := CallNext(c, s, id, giveUp, spawn);
    if s.calls[id].Claim? && s.writeIndex == s.calls[id].w {
      ClaimKeepsClaimsOk(s, s', id);
    } else {
      assert s'.claims == s.claims;
      assert Claimed(s'.calls[id]) == Claimed(s.calls[id]);
    }
  }

  lemma CallKeepsCopyOk(c: Config, s: State, id: Call, giveUp: bool, spawn: Task)
    requires ShardsOk(c, s) && CopyOk(s) && CallEnabled(c, s, id, spawn)
    ensures CopyOk(CallNext(c, s, id, giveUp, spawn))
  {
    var s' := CallNext(c, s, id, giveUp, spawn);
    if s.resize.Held? && s.resize.pc.Copy? {
      if s.calls[id].Store? {
        var k := s.calls[id].w % c.shards;
        assert CallHolds(c, s.calls[id], k);
        assert ResizeHolds(s, k);
        assert false;
      }
      CopyFrame(s, s');
    }
  }

  lemma CallKeepsPublished(c: Config, s: State, id: Call, giveUp: bool, spawn: Task)
    requires id in s.calls && CallEnabled(c, s, id, spawn)
    ensures forall x | IsPublished(s, x) :: IsPublished(CallNext(c, s, id, giveUp, spawn), x)
  {
  }

  lemma CallKeepsRingOk(c: Config, s: State, id: Call, giveUp: bool, spawn: Task)
    requires RingOk(s) && DeliveredOk(s) && CallEnabled(c, s, id, spawn)
    ensures RingOk(CallNext(c, s, id, giveUp, spawn)) && DeliveredOk(CallNext(c, s, id, giveUp, spawn))
  {
    CallKeepsPublished(c, s, id, giveUp, spawn);
  }

  lemma CallKeepsHandOk(c: Config, s: State, id: Call, giveUp: bool, spawn: Task)
    requires HandOk(s) && CallEnabled(c, s, id, spawn)
    ensures HandOk(CallNext(c, s, id, giveUp, spawn))
  {
    CallKeepsPublished(c, s, id, giveUp, spawn);
  }

  lemma CallKeepsGrownOk(c: Config, s: State, id: Call, giveUp: bool, spawn: Task)
    requires GrownOk(s) && CallEnabled(c, s, id, spawn)
    ensures GrownOk(CallNext(c, s, id, giveUp, spawn))
  {
    CallKeepsPublished(c, s, id, giveUp, spawn);
  }

  // ---- steps of the flush ---------------------------------------------------

  lemma FlushKeepsShape(c: Config, s: State, sinkOk: bool, shard: nat)
    requires Shape(c, s) && GrownShape(s) && FlushEnabled(c, s, shard)
    ensures Shape(c, FlushNext(c, s, sinkOk, shard)) && GrownShape(FlushNext(c, s, sinkOk, shard))
  {
    var s' := FlushNext(c, s, sinkOk, shard);
    assert s'.size == s.size && s'.mask == s.mask && s'.resize == s.resize;
    assert |s'.buffer| == |s.buffer| && |s'.shards| == |s.shards|;
  }

  lemma FlushKeepsIndices(c: Config, s: State, sinkOk: bool, shard: nat)
    requires Indices(s) && FlushOk(s) && FlushEnabled(c, s, shard)
    ensures Indices(FlushNext(c, s, sinkOk, shard)) && FlushOk(FlushNext(c, s, sinkOk, shard))
  {
  }

  lemma FlushKeepsResizeOk(c: Config, s: State, sinkOk: bool, shard: nat)
    requires ReadersOk(s) && ResizeOk(c, s) && FlushEnabled(c, s, shard)
    ensures ResizeOk(c, FlushNext(c, s, sinkOk, shard))
  {
  }

  lemma FlushKeepsReadersOk(c: Config, s: State, sinkOk: bool, shard: nat)
    requires ReadersOk(s) && FlushEnabled(c, s, shard)
    ensures ReadersOk(FlushNext(c, s, sinkOk, shard))
  {
  }

  lemma FlushLockKeepsShardsOk(c: Config, s: State, s': State, k: nat, owner: Option<Owner>)
    requires ShardsOk(c, s) && k < |s.shards|
    requires s.shards[k].None? || s.shards[k] == Some(ByFlusher)
    requires owner.None? || (owner == Some(ByFlusher) && FlushHolds(s'.flusher))
    requires FlushHolds(s.flusher) ==> FlushHolds(s'.flusher)
    requires s'.shards == s.shards[k := owner] && s'.calls == s.calls && s'.resize == s.resize
    ensures ShardsOk(c, s')
  {
    assert forall j: nat :: ResizeHolds(s', j) == ResizeHolds(s, j);
  }

  lemma FlushKeepsShardsOk(c: Config, s: State, sinkOk: bool, shard: nat)
    requires ShardsOk(c, s) && FlushEnabled(c, s, shard)
    ensures ShardsOk(c, FlushNext(c, s, sinkOk, shard))
  {
    var s' := FlushNext(c, s, sinkOk, shard);
    if s.flusher.FLockShards? && s.flusher.i < s.flusher.end {
      FlushLockKeepsShardsOk(c, s, s', s.flusher.i % c.shards, Some(ByFlusher));
    } else if s.flusher.FUnlockShards? && Some(ByFlusher) in s.shards {
      FlushLockKeepsShardsOk(c, s, s', shard, None);
    } else {
      assert s'.shards == s.shards && s'.calls == s.calls && s'.resize == s.resize;
      assert forall k: nat :: ResizeHolds(s', k) == ResizeHolds(s, k);
    }
  }

  lemma FlushKeepsCallsOk(c: Config, s: State, sinkOk: bool, shard: nat)
    requires CallsOk(s) && FlushOk(s) && FlushEnabled(c, s, shard)
    ensures CallsOk(FlushNext(c, s, sinkOk, shard))
  {
    SameCallsOk(s, FlushNext(c, s, sinkOk, shard));
  }

  lemma FlushKeepsCopyOk(c: Config, s: State, sinkOk: bool, shard: nat)
    requires CopyOk(s) && ReadersOk(s) && FlushEnabled(c, s, shard)
    ensures CopyOk(FlushNext(c, s, sinkOk, shard))
  {
    if s.resize.Held? && s.resize.pc.Copy? {
      assert FlushReader !in s.readers;
      CopyFrame(s, FlushNext(c, s, sinkOk, shard));
    }
  }

  lemma FlushKeepsRingOk(c: Config, s: State, sinkOk: bool, shard: nat)
    requires RingOk(s) && DeliveredOk(s) && HandOk(s) && FlushEnabled(c, s, shard)
    ensures RingOk(FlushNext(c, s, sinkOk, shard))
    ensures DeliveredOk(FlushNext(c, s, sinkOk, shard))
  {
  }

  lemma FlushKeepsHandOk(c: Config, s: State, sinkOk: bool, shard: nat)
    requires RingOk(s) && HandOk(s) && FlushEnabled(c, s, shard)
    ensures HandOk(FlushNext(c, s, sinkOk, shard))
  {
  }

  lemma FlushKeepsGrownOk(c: Config, s: State, sinkOk: bool, shard: nat)
    requires ReadersOk(s) && GrownOk(s) && FlushEnabled(c, s, shard)
    ensures GrownOk(FlushNext(c, s, sinkOk, shard))
    ensures ClaimsOk(s) ==> ClaimsOk(FlushNext(c, s, sinkOk, shard))
  {
  }

  // ---- steps of a resize ----------------------------------------------------

  lemma ResizeKeepsShape(c: Config, s: State)
    requires Shape(c, s) && GrownShape(s) && ResizeEnabled(c, s)
    ensures Shape(c, ResizeNext(c, s)) && GrownShape(ResizeNext(c, s))
  {
    match s.resize.pc
    case SetBuffer(_) => SetBufferKeepsShape(c, s);
    case SetSize(_) => SetSizeKeepsShape(c, s);
    case SetMask(_) => SetMaskKeepsShape(c, s);
    case _ => CopyingKeepsShape(c, s);
  }

  lemma SetBufferKeepsShape(c: Config, s: State)
    requires Shape(c, s) && GrownShape(s) && ResizeEnabled(c, s) && s.resize.pc.SetBuffer?
    ensures Shape(c, ResizeNext(c, s)) && GrownShape(ResizeNext(c, s))
  {
    var s' := ResizeNext(c, s);
    assert s'.size == s.size && s'.mask == s.mask && s'.shards == s.shards;
  }

  lemma SetSizeKeepsShape(c: Config, s: State)
    requires Shape(c, s) && ResizeEnabled(c, s) && s.resize.pc.SetSize?
    ensures Shape(c, ResizeNext(c, s)) && GrownShape(ResizeNext(c, s))
  {
    var s' := ResizeNext(c, s);
    assert s'.mask == s.mask && s'.buffer == s.buffer && s'.shards == s.shards && s'.size == 2 * s.size;
    Doubled(s.size);
  }

  lemma SetMaskKeepsShape(c: Config, s: State)
    requires Shape(c, s) && ResizeEnabled(c, s) && s.resize.pc.SetMask?
    ensures Shape(c, ResizeNext(c, s)) && GrownShape(ResizeNext(c, s))
  {
    var s' := ResizeNext(c, s);
    assert s'.size == s.size && s'.buffer == s.buffer && s'.shards == s.shards && s'.mask + 1 == s.size;
  }

  lemma CopyingKeepsShape(c: Config, s: State)
    requires Shape(c, s) && GrownShape(s) && ResizeEnabled(c, s)
    requires !s.resize.pc.SetBuffer? && !s.resize.pc.SetSize? && !s.resize.pc.SetMask?
    ensures Shape(c, ResizeNext(c, s)) && GrownShape(ResizeNext(c, s))
  {
  }

  lemma ResizeKeepsIndices(c: Config, s: State)
    requires Shape(c, s) && Indices(s) && FlushOk(s) && ResizeOk(c, s) && ResizeEnabled(c, s)
    ensures Indices(ResizeNext(c, s)) && FlushOk(ResizeNext(c, s)) && ResizeOk(c, ResizeNext(c, s))
  {
  }

  lemma ResizeKeepsReadersOk(c: Config, s: State)
    requires ReadersOk(s) && ResizeEnabled(c, s)
    ensures ReadersOk(ResizeNext(c, s))
  {
  }

  lemma ResizeKeepsCallsOk(c: Config, s: State)
    requires Shape(c, s) && CallsOk(s) && ResizeEnabled(c, s)
    ensures CallsOk(ResizeNext(c, s))
  {
    SameCallsOk(s, ResizeNext(c, s));
  }

  lemma ResizeKeepsShardsOk(c: Config, s: State)
    requires ShardsOk(c, s) && ResizeOk(c, s) && ResizeEnabled(c, s)
    ensures ShardsOk(c, ResizeNext(c, s))
  {
    var s' := ResizeNext(c, s);
    if s.resize.pc.RLockShards? {
    } else if s.resize.pc.RUnlockShards? {
    } else {
      assert s'.shards == s.shards;
      assert forall k: nat | k < c.shards :: ResizeHolds(s', k) == ResizeHolds(s, k);
    }
  }

  /** The entry about to be copied is not in the copy yet: the window is no wider
      than the ring, so no two of its indices share an old slot. */
  lemma CopyIsNew(s: State, j: nat)
    requires IsPow2(s.size) && s.mask + 1 == s.size && |s.buffer| == s.size && Distinct(s.buffer)
    requires CopyOk(s) && s.resize.Held? && s.resize.pc.Copy?
    requires s.resize.pc.i < s.resize.pc.r + s.size
    requires j < |s.resize.pc.grown| && s.resize.pc.grown[j].Some?
    ensures s.resize.pc.grown[j] != s.buffer[Slot(s.resize.pc.i, s.mask)]
  {
    var r, i, grown := s.resize.pc.r, s.resize.pc.i, s.resize.pc.grown;
    assert CopiedFrom(s, r, i, j, grown[j]);
    var t: nat :| r <= t < i && Slot(t, 2 * s.size - 1) == j && Slot(t, s.mask) < |s.buffer|
                  && s.buffer[Slot(t, s.mask)] == grown[j];
    SlotInjective(t, i, s.size);
  }

  lemma CopyStepKeepsGrownOk(c: Config, s: State)
    requires IsPow2(s.size) && s.mask + 1 == s.size && |s.buffer| == s.size && RingOk(s)
    requires ResizeEnabled(c, s) && s.resize.pc.Copy? && s.resize.pc.i < s.resize.pc.w
    requires s.resize.pc.i < s.resize.pc.r + s.size && !s.flusher.FClear? && |s.resize.pc.grown| == 2 * s.size
    requires GrownOk(s) && CopyOk(s)
    ensures GrownOk(ResizeNext(c, s))
  {
    forall j: nat | j < |Grown(s)| && Grown(s)[j].Some?
      ensures Grown(s)[j] != s.buffer[Slot(s.resize.pc.i, s.mask)]
    {
      CopyIsNew(s, j);
    }
  }

  lemma ResizeKeepsGrownOk(c: Config, s: State)
    requires Shape(c, s) && GrownShape(s) && Indices(s) && ResizeOk(c, s) && ReadersOk(s) && RingOk(s)
    requires GrownOk(s) && CopyOk(s) && ResizeEnabled(c, s)
    ensures GrownOk(ResizeNext(c, s))
  {
    if s.resize.pc.Copy? && s.resize.pc.i < s.resize.pc.w {
      assert FlushReader !in s.readers;
      CopyStepKeepsGrownOk(c, s);
    } else {
      var grown := Grown(ResizeNext(c, s));
      assert grown == Grown(s) || forall j | 0 <= j < |grown| :: grown[j].None?;
    }
  }

  lemma ResizeKeepsCopyOk(c: Config, s: State)
    requires Shape(c, s) && GrownShape(s) && ResizeOk(c, s) && CopyOk(s)
    requires ResizeEnabled(c, s)
    ensures CopyOk(ResizeNext(c, s))
  {
    var s' := ResizeNext(c, s);
    if s.resize.pc.Copy? && s.resize.pc.i < s.resize.pc.w {
      var r, i, grown := s.resize.pc.r, s.resize.pc.i, s.resize.pc.grown;
      var grown' := s'.resize.pc.grown;
      assert grown' == grown[Slot(i, 2 * s.size - 1) := s.buffer[Slot(i, s.mask)]];
      assert s'.buffer == s.buffer && s'.mask == s.mask && s'.size == s.size;
      forall j | 0 <= j < |grown'| && grown'[j].Some? ensures CopiedFrom(s', r, i + 1, j, grown'[j]) {
        CopyOneMore(s, s', r, i, grown, j);
      }
    } else {
      assert !(s'.resize.Held? && s'.resize.pc.Copy?) || s'.resize.pc.grown == seq(2 * s.size, _ => None);
    }
  }

  lemma CopyOneMore(s: State, s': State, r: nat, i: nat, grown: Slots, j: nat)
    requires CopyOk(s) && s.resize.Held? && s.resize.pc.Copy? && s.resize.pc.r == r && s.resize.pc.i == i
    requires s.resize.pc.grown == grown && r <= i && s'.buffer == s.buffer && s'.mask == s.mask && s'.size == s.size
    requires Slot(i, 2 * s.size - 1) < |grown| && Slot(i, s.mask) < |s.buffer| && j < |grown|
    ensures var grown' := grown[Slot(i, 2 * s.size - 1) := s.buffer[Slot(i, s.mask)]];
            grown'[j].Some? ==> CopiedFrom(s', r, i + 1, j, grown'[j])
  {
    if j == Slot(i, 2 * s.size - 1) {
      assert s'.buffer[Slot(i, s.mask)] == s.buffer[Slot(i, s.mask)];
    } else if grown[j].Some? {
      assert CopiedFrom(s, r, i, j, grown[j]);
    }
  }

  lemma ResizeKeepsRingOk(c: Config, s: State)
    requires ReadersOk(s) && RingOk(s) && GrownOk(s) && DeliveredOk(s) && ResizeEnabled(c, s)
    ensures RingOk(ResizeNext(c, s)) && DeliveredOk(ResizeNext(c, s))
  {
  }

  lemma ResizeKeepsHandOk(c: Config, s: State)
    requires ReadersOk(s) && HandOk(s) && ResizeEnabled(c, s)
    ensures HandOk(ResizeNext(c, s))
  {
  }

  // ---- a queued maybeResize, and a new call ---------------------------------

  lemma WaitingKeepsControl(c: Config, s: State, task: Task)
    requires Shape(c, s) && GrownShape(s) && Indices(s) && FlushOk(s) && ResizeOk(c, s) && ReadersOk(s)
    requires WaitingEnabled(s, task)
    ensures Shape(c, WaitingNext(c, s, task)) && GrownShape(WaitingNext(c, s, task))
    ensures Indices(WaitingNext(c, s, task)) && FlushOk(WaitingNext(c, s, task))
    ensures ResizeOk(c, WaitingNext(c, s, task)) && ReadersOk(WaitingNext(c, s, task))
  {
    if s.waiting[task] == AwaitLock {
      var s' := WaitingNext(c, s, task);
      assert s' == s.(waiting := s'.waiting, resize := Held(task, Draining));
    } else {
      assert WaitingNext(c, s, task) == s.(waiting := WaitingNext(c, s, task).waiting);
    }
  }

  lemma WaitingKeepsCalls(c: Config, s: State, task: Task)
    requires CallsOk(s) && ShardsOk(c, s) && WaitingEnabled(s, task)
    ensures CallsOk(WaitingNext(c, s, task))
    ensures ShardsOk(c, WaitingNext(c, s, task))
  {
    SameCallsOk(s, WaitingNext(c, s, task));
    assert forall k: nat :: ResizeHolds(WaitingNext(c, s, task), k) == ResizeHolds(s, k);
  }

  lemma WaitingKeepsEntries(c: Config, s: State, task: Task)
    requires ClaimsOk(s) && RingOk(s) && DeliveredOk(s) && HandOk(s) && GrownOk(s) && WaitingEnabled(s, task)
    ensures ClaimsOk(WaitingNext(c, s, task)) && RingOk(WaitingNext(c, s, task))
    ensures DeliveredOk(WaitingNext(c, s, task)) && HandOk(WaitingNext(c, s, task))
    ensures GrownOk(WaitingNext(c, s, task))
    ensures CopyOk(s) ==> CopyOk(WaitingNext(c, s, task))
  {
    var s' := WaitingNext(c, s, task);
    assert s'.buffer == s.buffer && s'.delivered == s.delivered && s'.calls == s.calls && Grown(s') == Grown(s);
    if CopyOk(s) {
      if s.resize.Held? && s.resize.pc.Copy? {
        CopyFrame(s, s');
      }
    }
  }

  lemma NewCallKeepsControl(c: Config, s: State, id: Call)
    requires Shape(c, s) && GrownShape(s) && Indices(s) && FlushOk(s) && ResizeOk(c, s) && ReadersOk(s)
    requires id !in s.calls
    ensures Shape(c, Next(c, s, NewCall(id))) && GrownShape(Next(c, s, NewCall(id)))
    ensures Indices(Next(c, s, NewCall(id))) && FlushOk(Next(c, s, NewCall(id)))
    ensures ResizeOk(c, Next(c, s, NewCall(id))) && ReadersOk(Next(c, s, NewCall(id)))
  {
  }

  lemma NewCallKeepsCalls(c: Config, s: State, id: Call)
    requires CallsOk(s) && ShardsOk(c, s) && id !in s.calls
    ensures CallsOk(Next(c, s, NewCall(id)))
    ensures ShardsOk(c, Next(c, s, NewCall(id)))
  {
    var s' := Next(c, s, NewCall(id));
    forall x | x in s'.calls ensures CallOk(s', x, s'.calls[x]) {
      if x != id {
        CallOkFrame(s, s', x, s.calls[x]);
      }
    }
    assert forall k: nat :: ResizeHolds(s', k) == ResizeHolds(s, k);
  }

  lemma NewCallKeepsEntries(c: Config, s: State, id: Call)
    requires ClaimsOk(s) && RingOk(s) && DeliveredOk(s) && HandOk(s) && GrownOk(s) && CopyOk(s) && id !in s.calls
    ensures ClaimsOk(Next(c, s, NewCall(id))) && RingOk(Next(c, s, NewCall(id)))
    ensures DeliveredOk(Next(c, s, NewCall(id))) && HandOk(Next(c, s, NewCall(id)))
    ensures GrownOk(Next(c, s, NewCall(id))) && CopyOk(Next(c, s, NewCall(id)))
  {
    var s' := Next(c, s, NewCall(id));
    assert forall x | IsPublished(s, x) :: IsPublished(s', x);
    CopyFrame(s, s');
  }

  // ---- runs -----------------------------------------------------------------

  lemma InitInv(c: Config)
    requires IsPow2(c.size)
    ensures Inv(c, Init(c))
  {
  }

  lemma CallKeepsControlInv(c: Config, s: State, id: Call, giveUp: bool, spawn: Task)
    requires ControlInv(c, s) && CallEnabled(c, s, id, spawn)
    ensures ControlInv(c, CallNext(c, s, id, giveUp, spawn))
  {
    CallKeepsShape(c, s, id, giveUp, spawn);
    CallKeepsOtherPcs(c, s, id, giveUp, spawn);
    CallKeepsReadersOk(c, s, id, giveUp, spawn);
    CallKeepsIndices(c, s, id, giveUp, spawn);
    CallKeepsCallsOk(c, s, id, giveUp, spawn);
    CallKeepsShardsOk(c, s, id, giveUp, spawn);
  }

  lemma CallKeepsEntryInv(c: Config, s: State, id: Call, giveUp: bool, spawn: Task)
    requires Inv(c, s) && CallEnabled(c, s, id, spawn)
    ensures EntryInv(CallNext(c, s, id, giveUp, spawn))
  {
    CallKeepsClaimsOk(c, s, id, giveUp, spawn);
    CallKeepsRingOk(c, s, id, giveUp, spawn);
    CallKeepsHandOk(c, s, id, giveUp, spawn);
    CallKeepsGrownOk(c, s, id, giveUp, spawn);
    CallKeepsCopyOk(c, s, id, giveUp, spawn);
  }

  lemma FlushKeepsControlInv(c: Config, s: State, sinkOk: bool, shard: nat)
    requires ControlInv(c, s) && FlushEnabled(c, s, shard)
    ensures ControlInv(c, FlushNext(c, s, sinkOk, shard))
  {
    FlushKeepsShape(c, s, sinkOk, shard);
    FlushKeepsIndices(c, s, sinkOk, shard);
    FlushKeepsCallsOk(c, s, sinkOk, shard);
    FlushKeepsResizeOk(c, s, sinkOk, shard);
    FlushKeepsReadersOk(c, s, sinkOk, shard);
    FlushKeepsShardsOk(c, s, sinkOk, shard);
  }

  lemma FlushKeepsEntryInv(c: Config, s: State, sinkOk: bool, shard: nat)
    requires Inv(c, s) && FlushEnabled(c, s, shard)
    ensures EntryInv(FlushNext(c, s, sinkOk, shard))
  {
    FlushKeepsRingOk(c, s, sinkOk, shard);
    FlushKeepsHandOk(c, s, sinkOk, shard);
    FlushKeepsGrownOk(c, s, sinkOk, shard);
    FlushKeepsCopyOk(c, s, sinkOk, shard);
  }

  lemma ResizeKeepsControlInv(c: Config, s: State)
    requires ControlInv(c, s) && ResizeEnabled(c, s)
    ensures ControlInv(c, ResizeNext(c, s))
  {
    ResizeKeepsShape(c, s);
    ResizeKeepsIndices(c, s);
    ResizeKeepsCallsOk(c, s);
    ResizeKeepsReadersOk(c, s);
    ResizeKeepsShardsOk(c, s);
  }

  lemma ResizeKeepsEntryInv(c: Config, s: State)
    requires Inv(c, s) && ResizeEnabled(c, s)
    ensures EntryInv(ResizeNext(c, s))
  {
    ResizeKeepsRingOk(c, s);
    ResizeKeepsHandOk(c, s);
    ResizeKeepsGrownOk(c, s);
    ResizeKeepsCopyOk(c, s);
  }

  lemma NewCallKeepsInv(c: Config, s: State, id: Call)
    requires Inv(c, s) && id !in s.calls
    ensures Inv(c, Next(c, s, NewCall(id)))
  {
    NewCallKeepsControl(c, s, id);
    NewCallKeepsCalls(c, s, id);
    NewCallKeepsEntries(c, s, id);
  }

  lemma WaitingKeepsInv(c: Config, s: State, task: Task)
    requires Inv(c, s) && WaitingEnabled(s, task)
    ensures Inv(c, WaitingNext(c, s, task))
  {
    WaitingKeepsControl(c, s, task);
    WaitingKeepsCalls(c, s, task);
    WaitingKeepsEntries(c, s, task);
  }

  lemma StepKeepsInv(c: Config, s: State, a: Action)
    requires Inv(c, s) && Enabled(c, s, a)
    ensures Inv(c, Next(c, s, a))
  {
    match a
    case NewCall(id) => NewCallKeepsInv(c, s, id);
    case StepCall(id, giveUp, spawn) =>
      CallKeepsControlInv(c, s, id, giveUp, spawn);
      CallKeepsEntryInv(c, s, id, giveUp, spawn);
    case StepFlush(sinkOk, shard) =>
      FlushKeepsControlInv(c, s, sinkOk, shard);
      FlushKeepsEntryInv(c, s, sinkOk, shard);
    case StepWaiting(task) => WaitingKeepsInv(c, s, task);
    case StepResize =>
      ResizeKeepsControlInv(c, s);
      ResizeKeepsEntryInv(c, s);
  }

  lemma {:induction false} RunKeepsInv(c: Config, s: State, run: seq<Action>)
    requires Inv(c, s) && Possible(c, s, run)
    ensures Inv(c, After(c, s, run))
    decreases |run|
  {
    if run != [] {
      StepKeepsInv(c, s, run[0]);
      RunKeepsInv(c, Next(c, s, run[0]), run[1..]);
    }
  }
}
