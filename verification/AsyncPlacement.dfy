/** Where stored entries are, through every step of the ring, growth included. */
module AsyncPlacement {
  import opened Bits
  import opened Wrappers
  import opened AsyncProtocol
  import opened AsyncSafety
  import opened AsyncOrder

  // ---- when a take finds its entry -------------------------------------------

  /** Whether a flush step that takes an index comes after the store to it. */
  predicate Timely(s: State, a: Action)
  {
    Takes(s, a) ==> s.flusher.i < |s.claims| && IsPublished(s, s.claims[s.flusher.i])
  }

  predicate AllTimely(c: Config, s: State, run: seq<Action>)
    requires Possible(c, s, run)
    decreases |run|
  {
    run == [] || (Timely(s, run[0]) && AllTimely(c, Next(c, s, run[0]), run[1..]))
  }

  /** Whether a store of index v would not reach the grown ring: a growth copies the
      indices below the write index it loaded before it locked the shards; what is
      stored after the copy goes to the old buffer, or to a slot of the old mask. */
  predicate MissesGrowth(s: State, v: nat)
  {
    match s.resize
    case Held(_, RLockShards(_, w, _)) => v >= w
    case Held(_, Copy(_, _, _, _)) => true
    case Held(_, RUnlockShards(_, _)) => true
    case Held(_, SetBuffer(_)) => true
    case Held(_, SetSize(_)) => Slot(v, s.mask) != Slot(v, 2 * s.mask + 1)
    case Held(_, SetMask(_)) => Slot(v, s.mask) != Slot(v, 2 * s.mask + 1)
    case _ => false
  }

  predicate Careful(s: State, a: Action)
  {
    a.StepCall? && a.id in s.calls && s.calls[a.id].Store? ==> !MissesGrowth(s, s.calls[a.id].w)
  }

  predicate AllCareful(c: Config, s: State, run: seq<Action>)
    requires Possible(c, s, run)
    decreases |run|
  {
    run == [] || (Careful(s, run[0]) && AllCareful(c, Next(c, s, run[0]), run[1..]))
  }

  ghost predicate FixedSize(s: State)
  {
    s.resize.Free? && s.waiting == map[]
  }

  lemma {:induction false} FixedSizeIsCareful(c: Config, s: State, run: seq<Action>)
    requires !c.dynamicResize && FixedSize(s) && Possible(c, s, run)
    ensures AllCareful(c, s, run)
    decreases |run|
  {
    if run != [] {
      assert FixedSize(Next(c, s, run[0]));
      FixedSizeIsCareful(c, Next(c, s, run[0]), run[1..]);
    }
  }

  /** Whether a refusal, which gives up the rest of its batch, comes after every store
      to it. */
  ghost predicate DropsStored(s: State, a: Action)
  {
    a.StepFlush? && !a.sinkOk && s.flusher.FPut? ==>
      forall v | s.flusher.i <= v < s.flusher.end && v < |s.claims| :: IsPublished(s, s.claims[v])
  }

  ghost predicate AllDropsStored(c: Config, s: State, run: seq<Action>)
    requires Possible(c, s, run)
    decreases |run|
  {
    run == [] || (DropsStored(s, run[0]) && AllDropsStored(c, Next(c, s, run[0]), run[1..]))
  }

  /** Slot of index v holds the entry of v once v is stored. Before that it is empty,
      where `strict`: as long as the sink has refused nothing, which leaves the refused
      entries behind. */
  ghost predicate RightIn(s: State, b: Slots, mask: nat, v: nat, strict: bool)
  {
    v < |s.claims| && Slot(v, mask) < |b| && Right(s, b[Slot(v, mask)], v, strict)
  }

  ghost predicate Right(s: State, entry: Option<Call>, v: nat, strict: bool)
    requires v < |s.claims|
  {
    if IsPublished(s, s.claims[v]) then entry == Some(s.claims[v]) else strict ==> entry == None
  }

  ghost predicate Filled(s: State, b: Slots, mask: nat, lo: nat, hi: nat, strict: bool)
  {
    forall v: nat | lo <= v < hi :: RightIn(s, b, mask, v, strict)
  }

  predicate Between(lo: nat, v: nat, hi: nat)
  {
    lo <= v < hi
  }

  /** Only slots of the indices from lo up to hi are in use. */
  ghost predicate OnlyFrom(b: Slots, mask: nat, lo: nat, hi: nat, strict: bool)
  {
    strict ==> forall k | 0 <= k < |b| && b[k].Some? :: exists v: nat :: Between(lo, v, hi) && Slot(v, mask) == k
  }

  /** The mask the present buffer is meant for: a growth stores the buffer first. */
  function BufferMask(s: State): nat
  {
    match s.resize
    case Held(_, SetSize(_)) => 2 * s.mask + 1
    case Held(_, SetMask(_)) => 2 * s.mask + 1
    case _ => s.mask
  }

  /** The first index whose slot may be in use. */
  function Low(s: State): nat
  {
    if s.flusher.FClear? then s.flusher.i else Frontier(s)
  }

  ghost predicate Unstored(s: State, w: nat)
  {
    forall v: nat | w <= v < |s.claims| :: !IsPublished(s, s.claims[v])
  }

  /** What the buffer under construction will hold. */
  ghost predicate GrowthRight(s: State, strict: bool)
  {
    match s.resize
    case Held(_, RLockShards(_, w, _)) => Unstored(s, w)
    case Held(_, Copy(r, w, i, grown)) =>
      Unstored(s, w) && Filled(s, grown, 2 * s.size - 1, r, i, strict) && OnlyFrom(grown, 2 * s.size - 1, r, i, strict)
    case Held(_, RUnlockShards(grown, _)) => Whole(s, grown, strict)
    case Held(_, SetBuffer(grown)) => Whole(s, grown, strict)
    case _ => true
  }

  ghost predicate Whole(s: State, grown: Slots, strict: bool)
  {
    && Filled(s, grown, 2 * s.size - 1, s.readIndex, s.writeIndex, strict)
    && OnlyFrom(grown, 2 * s.size - 1, s.readIndex, s.writeIndex, strict)
  }

  ghost predicate WindowFilled(s: State, strict: bool)
  {
    Filled(s, s.buffer, BufferMask(s), Frontier(s), s.writeIndex, strict)
  }

  ghost predicate RestEmpty(s: State, strict: bool)
  {
    OnlyFrom(s.buffer, BufferMask(s), Low(s), s.writeIndex, strict)
  }

  /** Every stored entry that is not delivered yet is in the slot of its own index. */
  ghost predicate Placed(s: State, strict: bool)
  {
    WindowFilled(s, strict) && RestEmpty(s, strict) && GrowthRight(s, strict)
  }

  /** The facts of the safety invariant this needs. */
  ghost predicate Base(c: Config, s: State)
  {
    && Shape(c, s) && GrownShape(s) && Indices(s) && FlushOk(s) && ResizeOk(c, s) && CallsOk(s) && ReadersOk(s)
    && ClaimsOk(s) && DeliveredOk(s)
  }

  lemma InvBase(c: Config, s: State)
    requires Inv(c, s)
    ensures Base(c, s)
  {
  }

  // ---- frames ----------------------------------------------------------------

  lemma FilledFrame(s: State, s': State, b: Slots, mask: nat, lo: nat, hi: nat, strict: bool)
    requires Filled(s, b, mask, lo, hi, strict) && s.claims <= s'.claims
    requires forall x :: IsPublished(s', x) <==> IsPublished(s, x)
    ensures Filled(s', b, mask, lo, hi, strict)
  {
    forall v: nat | lo <= v < hi ensures RightIn(s', b, mask, v, strict) {
      assert RightIn(s, b, mask, v, strict);
    }
  }

  lemma OnlyFromWidens(b: Slots, mask: nat, lo: nat, hi: nat, lo': nat, hi': nat, strict: bool)
    requires OnlyFrom(b, mask, lo, hi, strict) && lo' <= lo && hi <= hi'
    ensures OnlyFrom(b, mask, lo', hi', strict)
  {
    forall k | strict && 0 <= k < |b| && b[k].Some?
      ensures exists v: nat :: Between(lo', v, hi') && Slot(v, mask) == k {
      var v: nat :| Between(lo, v, hi) && Slot(v, mask) == k;
      assert Between(lo', v, hi');
    }
  }

  /** No entry in the slot of an index just past the window. */
  lemma NextSlotEmpty(b: Slots, mask: nat, lo: nat, hi: nat, v: nat, strict: bool)
    requires OnlyFrom(b, mask, lo, hi, strict) && IsPow2(mask + 1) && |b| == mask + 1
    requires hi <= v < lo + mask + 1
    ensures strict ==> b[Slot(v, mask)].None?
  {
    if strict && b[Slot(v, mask)].Some? {
      var u: nat :| Between(lo, u, hi) && Slot(u, mask) == Slot(v, mask);
      SlotInjective(u, v, mask + 1);
      assert false;
    }
  }

  /** Putting an entry, or nothing, into the slot of index v disturbs no other index. */
  lemma OthersFilled(s: State, b: Slots, b': Slots, mask: nat, lo: nat, hi: nat, v: nat, strict: bool)
    requires Filled(s, b, mask, lo, hi, strict) && IsPow2(mask + 1) && Slot(v, mask) < |b|
    requires hi <= lo + mask + 1 && v < lo + mask + 1 && hi <= v + mask + 1
    requires |b'| == |b| && forall k | 0 <= k < |b| && k != Slot(v, mask) :: b'[k] == b[k]
    ensures forall u: nat | lo <= u < hi && u != v :: RightIn(s, b', mask, u, strict)
  {
    forall u: nat | lo <= u < hi && u != v ensures RightIn(s, b', mask, u, strict) {
      assert RightIn(s, b, mask, u, strict);
      if u < v {
        SlotInjective(u, v, mask + 1);
      } else {
        SlotInjective(v, u, mask + 1);
      }
    }
  }

  lemma OnlyFromPut(b: Slots, mask: nat, lo: nat, hi: nat, v: nat, entry: Option<Call>, strict: bool)
    requires OnlyFrom(b, mask, lo, hi, strict) && Between(lo, v, hi) && Slot(v, mask) < |b|
    ensures OnlyFrom(b[Slot(v, mask) := entry], mask, lo, hi, strict)
  {
    var b' := b[Slot(v, mask) := entry];
    forall k | strict && 0 <= k < |b'| && b'[k].Some?
      ensures exists u: nat :: Between(lo, u, hi) && Slot(u, mask) == k {
      if k != Slot(v, mask) {
        assert b[k].Some?;
      }
    }
  }

  /** A step that leaves the ring, its indices and the published calls alone. */
  lemma QuietKeepsPlaced(s: State, s': State, strict: bool)
    requires Placed(s, strict) && s'.claims == s.claims
    requires s'.buffer == s.buffer && s'.mask == s.mask && s'.size == s.size
    requires s'.writeIndex == s.writeIndex && Frontier(s') == Frontier(s) && Low(s') == Low(s)
    requires s'.resize == s.resize && (s'.readIndex == s.readIndex || s.resize.Free? || s.resize.pc == Draining)
    requires forall x :: IsPublished(s', x) <==> IsPublished(s, x)
    ensures Placed(s', strict)
  {
    FilledFrame(s, s', s.buffer, BufferMask(s), Frontier(s), s.writeIndex, strict);
    GrowthFrame(s, s', strict);
  }

  lemma GrowthFrame(s: State, s': State, strict: bool)
    requires GrowthRight(s, strict) && s'.size == s.size && s'.claims == s.claims && s'.writeIndex == s.writeIndex
    requires s'.resize == s.resize && (s'.readIndex == s.readIndex || s.resize.Free? || s.resize.pc == Draining)
    requires forall x :: IsPublished(s', x) <==> IsPublished(s, x)
    ensures GrowthRight(s', strict)
  {
    match s.resize
    case Held(_, Copy(r, w, i, grown)) => FilledFrame(s, s', grown, 2 * s.size - 1, r, i, strict);
    case Held(_, RUnlockShards(grown, _)) =>
      FilledFrame(s, s', grown, 2 * s.size - 1, s.readIndex, s.writeIndex, strict);
    case Held(_, SetBuffer(grown)) => FilledFrame(s, s', grown, 2 * s.size - 1, s.readIndex, s.writeIndex, strict);
    case _ =>
  }

  // ---- write steps -----------------------------------------------------------

  /** No flush has passed an index that is not stored yet. */
  ghost predicate PassedStored(s: State)
  {
    forall w | 0 <= w < Frontier(s) && w < |s.claims| :: IsPublished(s, s.claims[w])
  }

  lemma OrderPassesStored(s: State)
    requires DeliveredOk(s) && InClaimOrder(s)
    ensures PassedStored(s)
  {
    forall w | 0 <= w < Frontier(s) ensures IsPublished(s, s.claims[w]) {
      assert s.claims[w] == s.delivered[w];
    }
  }

  lemma NotPassedYet(s: State, id: Call, w: nat)
    requires CallsOk(s) && PassedStored(s)
    requires id in s.calls && s.calls[id].Store? && s.calls[id].w == w
    ensures Frontier(s) <= w < |s.claims| && s.claims[w] == id
  {
    assert CallOk(s, id, s.calls[id]);
  }

  lemma BufferShape(c: Config, s: State)
    requires Shape(c, s) && Indices(s) && FlushOk(s)
    ensures |s.buffer| == BufferMask(s) + 1 && IsPow2(BufferMask(s) + 1) && s.size <= |s.buffer|
    ensures s.readIndex <= Low(s) <= Frontier(s) && s.writeIndex <= s.readIndex + |s.buffer|
  {
    match s.resize
    case Held(_, SetSize(_)) => Doubled(s.mask + 1);
    case Held(_, SetMask(_)) => Doubled(s.mask + 1);
    case _ =>
  }

  lemma StoreFillsSlot(s: State, s': State, b: Slots, mask: nat, lo: nat, hi: nat, w: nat, strict: bool)
    requires Filled(s, b, mask, lo, hi, strict) && IsPow2(mask + 1) && |b| == mask + 1
    requires lo <= w < hi <= lo + mask + 1 && hi <= |s.claims| && NoRepeats(s.claims)
    requires s'.claims == s.claims
    requires forall x :: IsPublished(s', x) <==> IsPublished(s, x) || x == s.claims[w]
    ensures Filled(s', b[Slot(w, mask) := Some(s.claims[w])], mask, lo, hi, strict)
  {
    var b' := b[Slot(w, mask) := Some(s.claims[w])];
    OthersFilled(s, b, b', mask, lo, hi, w, strict);
    forall v: nat | lo <= v < hi ensures RightIn(s', b', mask, v, strict) {
      assert v != w ==> RightIn(s, b', mask, v, strict);
    }
  }

  lemma StoreEffect(c: Config, s: State, id: Call, giveUp: bool, spawn: Task)
    requires CallEnabled(c, s, id, spawn) && s.calls[id].Store?
    ensures var s' := CallNext(c, s, id, giveUp, spawn);
            && s'.buffer == s.buffer[Slot(s.calls[id].w, s.mask) := Some(id)] && s'.mask == s.mask && s'.size == s.size
            && s'.claims == s.claims && s'.readIndex == s.readIndex && s'.writeIndex == s.writeIndex
            && s'.flusher == s.flusher && s'.resize == s.resize
            && (forall x :: IsPublished(s', x) <==> IsPublished(s, x) || x == id)
  {
  }

  lemma StoreKeepsGrowth(s: State, s': State, w: nat, strict: bool)
    requires GrowthRight(s, strict) && !MissesGrowth(s, w) && w < |s.claims| && NoRepeats(s.claims)
    requires s'.claims == s.claims && s'.resize == s.resize
    requires forall x :: IsPublished(s', x) <==> IsPublished(s, x) || x == s.claims[w]
    ensures GrowthRight(s', strict)
  {
  }

  lemma StoreKeepsPlaced(c: Config, s: State, id: Call, giveUp: bool, spawn: Task, strict: bool)
    requires Base(c, s) && PassedStored(s) && Placed(s, strict) && CallEnabled(c, s, id, spawn) && s.calls[id].Store?
    requires !MissesGrowth(s, s.calls[id].w)
    ensures Placed(CallNext(c, s, id, giveUp, spawn), strict)
  {
    var s' := CallNext(c, s, id, giveUp, spawn);
    var w := s.calls[id].w;
    StoreEffect(c, s, id, giveUp, spawn);
    NotPassedYet(s, id, w);
    BufferShape(c, s);
    StoreKeepsRing(s, s', w, strict);
    StoreKeepsGrowth(s, s', w, strict);
  }

  lemma StoreKeepsRing(s: State, s': State, w: nat, strict: bool)
    requires WindowFilled(s, strict) && RestEmpty(s, strict) && NoRepeats(s.claims)
    requires |s.buffer| == BufferMask(s) + 1 && IsPow2(BufferMask(s) + 1) && Low(s) <= Frontier(s)
    requires Frontier(s) <= w < s.writeIndex == |s.claims| && s.writeIndex <= Frontier(s) + |s.buffer|
    requires !MissesGrowth(s, w) && !(s.resize.Held? && s.resize.pc.SetBuffer?)
    requires s'.buffer == s.buffer[Slot(w, s.mask) := Some(s.claims[w])] && s'.mask == s.mask
    requires s'.claims == s.claims && s'.writeIndex == s.writeIndex && s'.readIndex == s.readIndex
    requires s'.flusher == s.flusher && s'.resize == s.resize && Slot(w, s.mask) < |s.buffer|
    requires forall x :: IsPublished(s', x) <==> IsPublished(s, x) || x == s.claims[w]
    ensures WindowFilled(s', strict) && RestEmpty(s', strict)
  {
    assert Slot(w, s.mask) == Slot(w, BufferMask(s));
    assert BufferMask(s') == BufferMask(s) && Frontier(s') == Frontier(s) && Low(s') == Low(s);
    StoreFillsSlot(s, s', s.buffer, BufferMask(s), Frontier(s), s.writeIndex, w, strict);
    OnlyFromPut(s.buffer, BufferMask(s), Low(s), s.writeIndex, w, Some(s.claims[w]), strict);
  }

  lemma ClaimExtends(s: State, s': State, b: Slots, mask: nat, lo: nat, low: nat, id: Call, strict: bool)
    requires Filled(s, b, mask, lo, s.writeIndex, strict) && OnlyFrom(b, mask, low, s.writeIndex, strict)
    requires IsPow2(mask + 1) && |b| == mask + 1 && s.writeIndex < low + mask + 1
    requires |s.claims| == s.writeIndex && s'.claims == s.claims + [id] && !IsPublished(s, id)
    requires forall x :: IsPublished(s', x) <==> IsPublished(s, x)
    ensures Filled(s', b, mask, lo, s.writeIndex + 1, strict) && OnlyFrom(b, mask, low, s.writeIndex + 1, strict)
  {
    NextSlotEmpty(b, mask, low, s.writeIndex, s.writeIndex, strict);
    FilledFrame(s, s', b, mask, lo, s.writeIndex, strict);
    OnlyFromWidens(b, mask, low, s.writeIndex, low, s.writeIndex + 1, strict);
  }

  lemma ClaimKeepsGrowth(c: Config, s: State, s': State, id: Call, strict: bool)
    requires Shape(c, s) && GrownShape(s) && GrowthRight(s, strict) && Indices(s)
    requires s.writeIndex < s.readIndex + s.size && s'.claims == s.claims + [id] && !IsPublished(s, id)
    requires s'.writeIndex == s.writeIndex + 1 && s'.readIndex == s.readIndex && s'.size == s.size
    requires s'.resize == s.resize && forall x :: IsPublished(s', x) <==> IsPublished(s, x)
    ensures GrowthRight(s', strict)
  {
    Doubled(s.size);
    match s.resize
    case Held(_, Copy(r, w, i, grown)) => FilledFrame(s, s', grown, 2 * s.size - 1, r, i, strict);
    case Held(_, RUnlockShards(grown, _)) =>
      ClaimExtends(s, s', grown, 2 * s.size - 1, s.readIndex, s.readIndex, id, strict);
    case Held(_, SetBuffer(grown)) => ClaimExtends(s, s', grown, 2 * s.size - 1, s.readIndex, s.readIndex, id, strict);
    case _ =>
  }

  lemma ClaimEffect(c: Config, s: State, id: Call, giveUp: bool, spawn: Task)
    requires CallEnabled(c, s, id, spawn) && s.calls[id].Claim? && s.calls[id].w == s.writeIndex
    ensures var s' := CallNext(c, s, id, giveUp, spawn);
            && s'.buffer == s.buffer && s'.mask == s.mask && s'.size == s.size && s'.readIndex == s.readIndex
            && s'.claims == s.claims + [id] && s'.writeIndex == s.writeIndex + 1
            && s'.flusher == s.flusher && s'.resize == s.resize && !IsPublished(s, id)
            && (forall x :: IsPublished(s', x) <==> IsPublished(s, x))
  {
  }

  lemma ClaimFits(c: Config, s: State, id: Call)
    requires CallsOk(s) && id in s.calls && s.calls[id].Claim? && s.calls[id].w == s.writeIndex
    ensures s.writeIndex < s.readIndex + s.size
  {
    assert CallOk(s, id, s.calls[id]);
  }

  lemma ClaimKeepsPlaced(c: Config, s: State, id: Call, giveUp: bool, spawn: Task, strict: bool)
    requires Shape(c, s) && GrownShape(s) && Indices(s) && FlushOk(s) && CallsOk(s)
    requires Placed(s, strict) && CallEnabled(c, s, id, spawn)
    requires s.calls[id].Claim? && s.calls[id].w == s.writeIndex
    ensures Placed(CallNext(c, s, id, giveUp, spawn), strict)
  {
    var s' := CallNext(c, s, id, giveUp, spawn);
    ClaimEffect(c, s, id, giveUp, spawn);
    ClaimFits(c, s, id);
    BufferShape(c, s);
    ClaimExtends(s, s', s.buffer, BufferMask(s), Frontier(s), Low(s), id, strict);
    ClaimKeepsGrowth(c, s, s', id, strict);
  }

  lemma OtherCallStepsAreQuiet(c: Config, s: State, id: Call, giveUp: bool, spawn: Task)
    requires CallEnabled(c, s, id, spawn)
    requires !s.calls[id].Store? && !(s.calls[id].Claim? && s.calls[id].w == s.writeIndex)
    ensures var s' := CallNext(c, s, id, giveUp, spawn);
            && s'.buffer == s.buffer && s'.mask == s.mask && s'.size == s.size && s'.claims == s.claims
            && s'.readIndex == s.readIndex && s'.writeIndex == s.writeIndex && s'.delivered == s.delivered
            && s'.flusher == s.flusher && s'.resize == s.resize
            && (forall x :: IsPublished(s', x) <==> IsPublished(s, x))
  {
  }

  lemma CallKeepsPlaced(c: Config, s: State, id: Call, giveUp: bool, spawn: Task, strict: bool)
    requires Base(c, s) && PassedStored(s) && Placed(s, strict) && CallEnabled(c, s, id, spawn)
    requires s.calls[id].Store? ==> !MissesGrowth(s, s.calls[id].w)
    ensures Placed(CallNext(c, s, id, giveUp, spawn), strict)
  {
    if s.calls[id].Store? {
      StoreKeepsPlaced(c, s, id, giveUp, spawn, strict);
    } else if s.calls[id].Claim? && s.calls[id].w == s.writeIndex {
      ClaimKeepsPlaced(c, s, id, giveUp, spawn, strict);
    } else {
      OtherCallStepsAreQuiet(c, s, id, giveUp, spawn);
      QuietKeepsPlaced(s, CallNext(c, s, id, giveUp, spawn), strict);
    }
  }

  // ---- flush steps -----------------------------------------------------------

  /** While a flush is inside, no growth is past waiting for it. */
  lemma FlushExcludesGrowth(s: State)
    requires ReadersOk(s) && FlushReads(s.flusher)
    ensures s.resize.Free? || s.resize.pc == Draining
    ensures BufferMask(s) == s.mask
  {
  }

  lemma ClearKeepsPlaced(c: Config, s: State, sinkOk: bool, shard: nat, strict: bool)
    requires Base(c, s) && Placed(s, strict) && FlushEnabled(c, s, shard) && s.flusher.FClear?
    ensures Placed(FlushNext(c, s, sinkOk, shard), strict)
  {
    var s' := FlushNext(c, s, sinkOk, shard);
    var i := s.flusher.i;
    FlushExcludesGrowth(s);
    BufferShape(c, s);
    OthersFilled(s, s.buffer, s'.buffer, s.mask, i + 1, s.writeIndex, i, strict);
    FilledFrame(s, s', s'.buffer, s.mask, i + 1, s.writeIndex, strict);
    ClearedOnlyFrom(s.buffer, s.mask, i, s.writeIndex, strict);
  }

  lemma ClearedOnlyFrom(b: Slots, mask: nat, i: nat, hi: nat, strict: bool)
    requires OnlyFrom(b, mask, i, hi, strict) && Slot(i, mask) < |b|
    ensures OnlyFrom(b[Slot(i, mask) := None], mask, i + 1, hi, strict)
  {
    var b' := b[Slot(i, mask) := None];
    forall k | strict && 0 <= k < |b'| && b'[k].Some?
      ensures exists v: nat :: Between(i + 1, v, hi) && Slot(v, mask) == k {
      var v: nat :| Between(i, v, hi) && Slot(v, mask) == k;
      assert Between(i + 1, v, hi);
    }
  }

  /** The window narrows by the index just handed to the sink; its slot is cleared next. */
  lemma PutKeepsPlaced(c: Config, s: State, sinkOk: bool, shard: nat, strict: bool)
    requires Base(c, s) && Placed(s, strict) && FlushEnabled(c, s, shard) && s.flusher.FPut? && (strict ==> sinkOk)
    ensures Placed(FlushNext(c, s, sinkOk, shard), strict)
  {
    var s' := FlushNext(c, s, sinkOk, shard);
    FlushExcludesGrowth(s);
    FilledFrame(s, s', s.buffer, s.mask, Frontier(s'), s.writeIndex, strict);
  }

  lemma FlushKeepsPlaced(c: Config, s: State, sinkOk: bool, shard: nat, strict: bool)
    requires Base(c, s) && Placed(s, strict) && FlushEnabled(c, s, shard)
    requires Timely(s, StepFlush(sinkOk, shard)) && (strict ==> sinkOk)
    ensures Placed(FlushNext(c, s, sinkOk, shard), strict)
  {
    if s.flusher.FClear? {
      ClearKeepsPlaced(c, s, sinkOk, shard, strict);
    } else if s.flusher.FPut? {
      PutKeepsPlaced(c, s, sinkOk, shard, strict);
    } else {
      if FlushReads(s.flusher) {
        FlushExcludesGrowth(s);
      }
      if s.flusher.FTake? && s.flusher.i < s.flusher.end {
        assert RightIn(s, s.buffer, s.mask, s.flusher.i, strict);
      }
      FlushIsQuiet(c, s, sinkOk, shard);
      QuietKeepsPlaced(s, FlushNext(c, s, sinkOk, shard), strict);
    }
  }

  /** The steps of a flush between taking an entry, handing it out and clearing its slot. */
  lemma FlushIsQuiet(c: Config, s: State, sinkOk: bool, shard: nat)
    requires FlushOk(s) && FlushEnabled(c, s, shard) && !s.flusher.FPut? && !s.flusher.FClear?
    requires s.flusher.FTake? && s.flusher.i < s.flusher.end ==> s.buffer[Slot(s.flusher.i, s.mask)].Some?
    ensures var s' := FlushNext(c, s, sinkOk, shard);
            && s'.buffer == s.buffer && s'.mask == s.mask && s'.size == s.size && s'.claims == s.claims
            && s'.writeIndex == s.writeIndex && s'.resize == s.resize && s'.calls == s.calls
            && Frontier(s') == Frontier(s) && Low(s') == Low(s)
            && (s'.readIndex == s.readIndex || s.flusher.FStoreRead?)
  {
  }

  // ---- growth steps ----------------------------------------------------------

  lemma CopyOne(s: State, grown: Slots, m: nat, r: nat, i: nat, entry: Option<Call>, strict: bool)
    requires Filled(s, grown, m, r, i, strict) && OnlyFrom(grown, m, r, i, strict)
    requires IsPow2(m + 1) && |grown| == m + 1 && r <= i < r + m + 1 && i < |s.claims|
    requires Right(s, entry, i, strict)
    ensures Filled(s, grown[Slot(i, m) := entry], m, r, i + 1, strict)
    ensures OnlyFrom(grown[Slot(i, m) := entry], m, r, i + 1, strict)
  {
    var grown' := grown[Slot(i, m) := entry];
    OthersFilled(s, grown, grown', m, r, i, i, strict);
    assert RightIn(s, grown', m, i, strict);
    OnlyFromWidens(grown, m, r, i, r, i + 1, strict);
    OnlyFromPut(grown, m, r, i + 1, i, entry, strict);
  }

  lemma CopyEffect(c: Config, s: State)
    requires ResizeEnabled(c, s) && s.resize.pc.Copy? && s.resize.pc.i < s.resize.pc.w
    ensures var s', p := ResizeNext(c, s), s.resize.pc;
            var grown' := p.grown[Slot(p.i, 2 * s.size - 1) := s.buffer[Slot(p.i, s.mask)]];
            && s'.resize == Held(s.resize.task, Copy(p.r, p.w, p.i + 1, grown'))
            && s'.claims == s.claims && s'.calls == s.calls && s'.size == s.size
  {
  }

  lemma CopiedIsRight(s: State, strict: bool)
    requires ReadersOk(s) && WindowFilled(s, strict) && s.resize.Held? && s.resize.pc.Copy?
    requires s.readIndex <= s.resize.pc.i < s.writeIndex
    ensures RightIn(s, s.buffer, s.mask, s.resize.pc.i, strict)
  {
    assert !FlushReads(s.flusher);
  }

  lemma CopyKeepsGrowth(c: Config, s: State, strict: bool)
    requires Shape(c, s) && GrownShape(s) && Indices(s) && ResizeOk(c, s) && ReadersOk(s)
    requires WindowFilled(s, strict) && GrowthRight(s, strict)
    requires ResizeEnabled(c, s) && s.resize.pc.Copy? && s.resize.pc.i < s.resize.pc.w
    ensures GrowthRight(ResizeNext(c, s), strict)
  {
    var r, i, grown := s.resize.pc.r, s.resize.pc.i, s.resize.pc.grown;
    var m, entry := 2 * s.size - 1, s.buffer[Slot(i, s.mask)];
    CopyEffect(c, s);
    CopiedIsRight(s, strict);
    Doubled(s.size);
    CopyOne(s, grown, m, r, i, entry, strict);
    FilledFrame(s, ResizeNext(c, s), grown[Slot(i, m) := entry], m, r, i + 1, strict);
  }

  lemma CopyEndsWhole(c: Config, s: State, strict: bool)
    requires Shape(c, s) && GrownShape(s) && Indices(s) && ResizeOk(c, s) && GrowthRight(s, strict)
    requires ResizeEnabled(c, s) && s.resize.pc.Copy? && s.resize.pc.i == s.resize.pc.w
    ensures GrowthRight(ResizeNext(c, s), strict)
  {
    var s' := ResizeNext(c, s);
    var r, w, grown := s.resize.pc.r, s.resize.pc.w, s.resize.pc.grown;
    var m := 2 * s.size - 1;
    Doubled(s.size);
    forall v: nat | r <= v < s.writeIndex ensures RightIn(s', grown, m, v, strict) {
      if v < w {
        assert RightIn(s, grown, m, v, strict);
      } else {
        NextSlotEmpty(grown, m, r, w, v, strict);
      }
    }
    OnlyFromWidens(grown, m, r, w, r, s.writeIndex, strict);
  }

  lemma UnlockKeepsGrowth(c: Config, s: State, strict: bool)
    requires GrowthRight(s, strict) && ResizeEnabled(c, s) && s.resize.pc.RUnlockShards?
    ensures GrowthRight(ResizeNext(c, s), strict)
  {
    FilledFrame(s, ResizeNext(c, s), s.resize.pc.grown, 2 * s.size - 1, s.readIndex, s.writeIndex, strict);
  }

  lemma GrowthStepKeepsRight(c: Config, s: State, strict: bool)
    requires Shape(c, s) && GrownShape(s) && Indices(s) && ResizeOk(c, s) && ReadersOk(s)
    requires WindowFilled(s, strict) && GrowthRight(s, strict) && ResizeEnabled(c, s)
    ensures GrowthRight(ResizeNext(c, s), strict)
  {
    match s.resize.pc
    case Copy(_, w, i, _) =>
      if i < w {
        CopyKeepsGrowth(c, s, strict);
      } else {
        CopyEndsWhole(c, s, strict);
      }
    case RUnlockShards(_, _) => UnlockKeepsGrowth(c, s, strict);
    case _ =>
  }

  /** The store of the buffer puts the finished copy in place. */
  lemma SetBufferKeepsRing(c: Config, s: State, strict: bool)
    requires Shape(c, s) && ReadersOk(s) && GrowthRight(s, strict) && ResizeEnabled(c, s) && s.resize.pc.SetBuffer?
    ensures WindowFilled(ResizeNext(c, s), strict) && RestEmpty(ResizeNext(c, s), strict)
  {
    var s' := ResizeNext(c, s);
    assert !FlushReads(s.flusher);
    assert BufferMask(s') == 2 * s.size - 1;
    FilledFrame(s, s', s'.buffer, BufferMask(s'), s.readIndex, s.writeIndex, strict);
  }

  lemma BufferStays(c: Config, s: State)
    requires Shape(c, s) && ResizeEnabled(c, s) && !s.resize.pc.SetBuffer?
    ensures ResizeNext(c, s).buffer == s.buffer && BufferMask(ResizeNext(c, s)) == BufferMask(s)
  {
  }

  lemma ResizeKeepsPlaced(c: Config, s: State, strict: bool)
    requires Shape(c, s) && GrownShape(s) && Indices(s) && ResizeOk(c, s) && ReadersOk(s)
    requires Placed(s, strict) && ResizeEnabled(c, s)
    ensures Placed(ResizeNext(c, s), strict)
  {
    var s' := ResizeNext(c, s);
    GrowthStepKeepsRight(c, s, strict);
    if s.resize.pc.SetBuffer? {
      SetBufferKeepsRing(c, s, strict);
    } else {
      ResizeIsQuiet(c, s);
      BufferStays(c, s);
      FilledFrame(s, s', s.buffer, BufferMask(s), Frontier(s), s.writeIndex, strict);
    }
  }

  // ---- runs ------------------------------------------------------------------

  ghost predicate Fifo(s: State)
  {
    InOrder(s) && Placed(s, true)
  }

  /** On a ring where every entry is in its place, a take finds its entry exactly when
      it comes after the store. */
  lemma TimelyFinds(c: Config, s: State, a: Action, strict: bool)
    requires Base(c, s) && Placed(s, strict) && Enabled(c, s, a)
    ensures Timely(s, a) ==> Finds(s, a)
    ensures strict && Finds(s, a) ==> Timely(s, a)
  {
    if Takes(s, a) {
      FlushExcludesGrowth(s);
      assert RightIn(s, s.buffer, s.mask, s.flusher.i, strict);
    }
  }

  lemma WaitingKeepsPlaced(c: Config, s: State, task: Task, strict: bool)
    requires Placed(s, strict) && WaitingEnabled(s, task)
    ensures Placed(WaitingNext(c, s, task), strict)
  {
    var s' := WaitingNext(c, s, task);
    FilledFrame(s, s', s.buffer, BufferMask(s), Frontier(s), s.writeIndex, strict);
    if s'.resize == s.resize {
      GrowthFrame(s, s', strict);
    }
  }

  lemma StepKeepsPlaced(c: Config, s: State, a: Action, strict: bool)
    requires Base(c, s) && PassedStored(s) && Placed(s, strict) && Enabled(c, s, a)
    requires (strict ==> SinkAccepts(a)) && Timely(s, a) && Careful(s, a)
    ensures Placed(Next(c, s, a), strict)
  {
    match a
    case NewCall(id) => QuietKeepsPlaced(s, Next(c, s, a), strict);
    case StepCall(id, giveUp, spawn) => CallKeepsPlaced(c, s, id, giveUp, spawn, strict);
    case StepFlush(sinkOk, shard) => FlushKeepsPlaced(c, s, sinkOk, shard, strict);
    case StepWaiting(task) => WaitingKeepsPlaced(c, s, task, strict);
    case StepResize => ResizeKeepsPlaced(c, s, strict);
  }

  lemma InitFifo(c: Config)
    requires IsPow2(c.size)
    ensures Fifo(Init(c))
  {
  }
}
